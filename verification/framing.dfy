/** The line framing of the decode loop: the pending text plus the new chunk
    is split on '\n' with JavaScript's `split`, every piece but the last is
    a complete line to process, and the last piece becomes the new pending
    text. Only '\n' is a line break; '\r' stays part of a line. */
module Framing {
  import opened Text

  /** Index of the first '\n' in `s`. */
  function FirstNewline(s: string): (i: nat)
    requires '\n' in s
    ensures i < |s| && s[i] == '\n'
    ensures NoNewline(s[..i])
  {
    if s[0] == '\n' then 0
    else
      var j := FirstNewline(s[1..]);
      assert s[..j + 1] == [s[0]] + s[1..][..j];
      j + 1
  }

  /** `pieces.join('\n')` */
  function Join(pieces: seq<string>): string
    decreases |pieces|
  {
    if |pieces| == 0 then ""
    else if |pieces| == 1 then pieces[0]
    else pieces[0] + "\n" + Join(pieces[1..])
  }

  /** Every line followed by its terminating '\n': the text a sequence of
      complete lines was cut from. */
  function Unlines(lines: seq<string>): string
    decreases |lines|
  {
    if lines == [] then "" else lines[0] + "\n" + Unlines(lines[1..])
  }

  predicate AllLines(lines: seq<string>) {
    forall i :: 0 <= i < |lines| ==> NoNewline(lines[i])
  }

  /** `s.split('\n')`: the pieces between line breaks, never empty, free
      of line breaks, and joined back they give `s`. */
  function Split(s: string): (pieces: seq<string>)
    ensures |pieces| >= 1
    ensures AllLines(pieces)
    ensures Join(pieces) == s
    decreases |s|
  {
    if NoNewline(s) then [s]
    else
      var i := FirstNewline(s);
      var rest := Split(s[i + 1..]);
      assert s == s[..i] + "\n" + s[i + 1..];
      assert ([s[..i]] + rest)[1..] == rest;
      [s[..i]] + rest
  }

  /** What one chunk contributes: the complete lines and the new pending text. */
  datatype Framed = Framed(lines: seq<string>, rest: string)

  /** `lines = (buffer + chunk).split('\n'); buffer = lines.pop() || ''`.
      The pending text and the chunk are exactly the complete lines, each
      with its '\n', followed by a remainder without any line break. */
  function Frame(buffer: string, chunk: string): (f: Framed)
    ensures Unlines(f.lines) + f.rest == buffer + chunk
    ensures AllLines(f.lines) && NoNewline(f.rest)
  {
    var pieces := Split(buffer + chunk);
    JoinIsUnlines(pieces[..|pieces| - 1], pieces[|pieces| - 1]);
    assert pieces[..|pieces| - 1] + [pieces[|pieces| - 1]] == pieces;
    Framed(pieces[..|pieces| - 1], pieces[|pieces| - 1])
  }

  /** The '\n'-terminated lines of a whole text. */
  function CompleteLines(s: string): seq<string> {
    Frame("", s).lines
  }

  /** The text after the last '\n' of a whole text. */
  function Trailing(s: string): string {
    Frame("", s).rest
  }

  lemma {:induction false} JoinIsUnlines(lines: seq<string>, last: string)
    ensures Join(lines + [last]) == Unlines(lines) + last
    decreases |lines|
  {
    if lines != [] {
      JoinIsUnlines(lines[1..], last);
      assert (lines + [last])[1..] == lines[1..] + [last];
    }
  }

  lemma {:induction false} UnlinesAppend(a: seq<string>, b: seq<string>)
    ensures Unlines(a + b) == Unlines(a) + Unlines(b)
    decreases |a|
  {
    if a == [] {
      assert a + b == b;
    } else {
      UnlinesAppend(a[1..], b);
      assert (a + b)[1..] == a[1..] + b;
      calc {
        Unlines(a + b);
        a[0] + "\n" + Unlines(a[1..] + b);
        a[0] + "\n" + (Unlines(a[1..]) + Unlines(b));
        (a[0] + "\n" + Unlines(a[1..])) + Unlines(b);
      }
    }
  }

  /** Splitting undoes `Unlines`: a text built from lines without line
      breaks and a remainder without line breaks splits back into exactly
      those lines and that remainder. */
  lemma {:induction false} SplitUnlines(lines: seq<string>, last: string)
    requires AllLines(lines) && NoNewline(last)
    ensures Split(Unlines(lines) + last) == lines + [last]
    decreases |lines|
  {
    if lines == [] {
      assert Unlines(lines) + last == last;
    } else {
      var rest := Unlines(lines[1..]) + last;
      var s := Unlines(lines) + last;
      assert Unlines(lines) == lines[0] + "\n" + Unlines(lines[1..]);
      Assoc(lines[0] + "\n", Unlines(lines[1..]), last);
      assert s == lines[0] + "\n" + rest;
      SplitFirstLine(lines[0], rest);
      assert AllLines(lines[1..]);
      SplitUnlines(lines[1..], last);
      assert Split(s) == [lines[0]] + (lines[1..] + [last]);
      assert lines == [lines[0]] + lines[1..];
    }
  }

  /** Splitting a text that starts with a complete line yields that line
      first, then the pieces of the rest. */
  lemma SplitFirstLine(l: string, rest: string)
    requires NoNewline(l)
    ensures Split(l + "\n" + rest) == [l] + Split(rest)
  {
    var s := l + "\n" + rest;
    assert s[|l|] == '\n';
    var i := FirstNewline(s);
    assert s[..|l|] == l;
    assert i <= |l|;
    assert i >= |l|;
    assert s[..i] == l && s[i + 1..] == rest;
  }

  /** The decomposition of a text into complete lines and a remainder is
      unique: whatever lines and remainder build it are the ones framing
      finds. */
  lemma DecompositionUnique(s: string, lines: seq<string>, last: string)
    requires AllLines(lines) && NoNewline(last)
    requires s == Unlines(lines) + last
    ensures CompleteLines(s) == lines && Trailing(s) == last
  {
    SplitUnlines(lines, last);
    var pieces := Split("" + s);
    assert "" + s == s;
    assert pieces == lines + [last];
    assert pieces[..|pieces| - 1] == lines;
  }

  /** Framing a chunk against a pending text equals framing the pending
      text and chunk as one text. */
  lemma FrameIsWholeText(buffer: string, chunk: string)
    ensures Frame(buffer, chunk).lines == CompleteLines(buffer + chunk)
    ensures Frame(buffer, chunk).rest == Trailing(buffer + chunk)
  {
    var f := Frame(buffer, chunk);
    DecompositionUnique(buffer + chunk, f.lines, f.rest);
  }

  /** Complete lines that precede a text come out first and unchanged. */
  lemma CompleteLinesAfter(lines: seq<string>, y: string)
    requires AllLines(lines)
    ensures CompleteLines(Unlines(lines) + y) == lines + CompleteLines(y)
    ensures Trailing(Unlines(lines) + y) == Trailing(y)
  {
    var f := Frame("", y);
    assert y == Unlines(f.lines) + f.rest by {
      assert "" + y == y;
    }
    UnlinesAppend(lines, f.lines);
    var all := lines + f.lines;
    assert AllLines(all) by {
      forall i | 0 <= i < |all|
        ensures NoNewline(all[i])
      {
        if i >= |lines| {
          assert all[i] == f.lines[i - |lines|];
        }
      }
    }
    Assoc(Unlines(lines), Unlines(f.lines), f.rest);
    DecompositionUnique(Unlines(lines) + y, all, f.rest);
  }

  /** The framing alone, fed one chunk at a time: all complete lines in the
      order produced, and the pending text left at the end. */
  function FeedFrames(buffer: string, chunks: seq<string>): Framed
    decreases |chunks|
  {
    if chunks == [] then Framed([], buffer)
    else
      var f := Frame(buffer, chunks[0]);
      var g := FeedFrames(f.rest, chunks[1..]);
      Framed(f.lines + g.lines, g.rest)
  }

  /** Chunk boundaries do not matter: feeding chunks one at a time yields
      every '\n'-terminated line of the whole input exactly once, in order,
      and leaves the unterminated tail pending. */
  lemma {:induction false} FramingChunkIndependent(buffer: string, chunks: seq<string>)
    requires NoNewline(buffer)
    ensures FeedFrames(buffer, chunks).lines == CompleteLines(buffer + Concat(chunks))
    ensures FeedFrames(buffer, chunks).rest == Trailing(buffer + Concat(chunks))
    decreases |chunks|
  {
    if chunks == [] {
      assert buffer + Concat(chunks) == buffer;
      assert buffer == Unlines([]) + buffer;
      DecompositionUnique(buffer, [], buffer);
    } else {
      var f := Frame(buffer, chunks[0]);
      var g := FeedFrames(f.rest, chunks[1..]);
      assert FeedFrames(buffer, chunks) == Framed(f.lines + g.lines, g.rest);
      FramingChunkIndependent(f.rest, chunks[1..]);
      var y := f.rest + Concat(chunks[1..]);
      assert g.lines == CompleteLines(y) && g.rest == Trailing(y);
      CompleteLinesAfter(f.lines, y);
      FeedRegroup(buffer, chunks);
    }
  }

  /** Regrouping the whole input around the first chunk's complete lines. */
  lemma FeedRegroup(buffer: string, chunks: seq<string>)
    requires chunks != []
    ensures buffer + Concat(chunks)
         == Unlines(Frame(buffer, chunks[0]).lines) + (Frame(buffer, chunks[0]).rest + Concat(chunks[1..]))
  {
    var f := Frame(buffer, chunks[0]);
    Regroup(buffer, chunks[0], Concat(chunks[1..]), Unlines(f.lines), f.rest);
  }

  lemma Assoc(a: string, b: string, c: string)
    ensures a + (b + c) == (a + b) + c
  {
  }

  lemma Regroup(a: string, b: string, c: string, u: string, r: string)
    requires a + b == u + r
    ensures a + (b + c) == u + (r + c)
  {
    assert a + (b + c) == (a + b) + c;
    assert u + (r + c) == (u + r) + c;
  }
}
