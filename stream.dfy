/** What the streamed reply of the chat server turns into: the assistant's
    text that `sendMessage` assembles from the chunks it reads.  Each chunk is
    split on newlines on its own (no text is carried over from one chunk to
    the next), blank lines are skipped, every other line goes to the JSON
    parser, and the non-empty `message.content` of each parsed line is
    appended to the text.  `JSON.parse` is a parameter of the model: a
    function from a line to what parsing it and reading `message?.content`
    gives. */
module Stream {
  import opened JsStrings

  datatype Option<T> = None | Some(value: T)

  /** The outcome of `JSON.parse(line)` followed by `json.message?.content`:
      the parser threw (or the parsed value has no properties to read), or it
      produced an object whose `message.content` is a string or absent. */
  datatype LineParse = Malformed | Parsed(content: Option<string>)

  /** The text one line adds to the reply, if any: only a line that is not
      blank, parses, and carries a non-empty `message.content` adds anything
      (an empty string is falsy in the source's test). */
  function LineIncrement(line: string, parse: string -> LineParse): (inc: Option<string>)
    ensures inc.Some? <==>
              !AllWhitespace(line) && parse(line).Parsed? && parse(line).content.Some?
              && parse(line).content.value != ""
    ensures inc.Some? ==> parse(line) == Parsed(inc)
  {
    TrimBlank(line);
    if Trim(line) == "" then None
    else
      match parse(line)
      case Malformed => None
      case Parsed(content) => if content.Some? && content.value != "" then content else None
  }

  function AsSeq(o: Option<string>): seq<string> {
    if o.Some? then [o.value] else []
  }

  /** The increments that a sequence of lines contributes, left to right. */
  function LineIncrements(lines: seq<string>, parse: string -> LineParse): (incs: seq<string>)
    ensures |incs| <= |lines|
    ensures "" !in incs
  {
    if lines == [] then []
    else LineIncrements(lines[..|lines| - 1], parse) + AsSeq(LineIncrement(lines[|lines| - 1], parse))
  }

  /** The increments of one chunk: those of its own newline-separated pieces. */
  function ChunkIncrements(chunk: string, parse: string -> LineParse): seq<string> {
    LineIncrements(Split(chunk, '\n'), parse)
  }

  /** The increments of the whole response, chunk after chunk. */
  function StreamIncrements(chunks: seq<string>, parse: string -> LineParse): (incs: seq<string>)
    ensures "" !in incs
  {
    if chunks == [] then []
    else StreamIncrements(chunks[..|chunks| - 1], parse) + ChunkIncrements(chunks[|chunks| - 1], parse)
  }

  /** The concatenation of a sequence of strings, in order. */
  function Concat(parts: seq<string>): string {
    if parts == [] then "" else Concat(parts[..|parts| - 1]) + parts[|parts| - 1]
  }

  /** The assistant's final text for a response made of `chunks`. */
  function Assemble(chunks: seq<string>, parse: string -> LineParse): string {
    Concat(StreamIncrements(chunks, parse))
  }

  /** The successive values of the accumulator: after the k-th increment it
      holds the first k + 1 increments, concatenated. */
  function Partials(parts: seq<string>): seq<string> {
    if parts == [] then [] else Partials(parts[..|parts| - 1]) + [Concat(parts)]
  }

  /** The lines that the reader sees: each chunk's own pieces, chunk after
      chunk. */
  function ChunkLines(chunks: seq<string>): seq<string> {
    if chunks == [] then [] else ChunkLines(chunks[..|chunks| - 1]) + Split(chunks[|chunks| - 1], '\n')
  }

  /** One pass of the inner read loop, stated on the specification: reading
      line `j` of a chunk extends the increments by that line's increment,
      the accumulator by its text, and the published values by the new
      accumulator. */
  lemma LineStep(before: seq<string>, lines: seq<string>, j: nat, parse: string -> LineParse)
    requires j < |lines|
    ensures var incs := before + LineIncrements(lines[..j], parse);
            var inc := LineIncrement(lines[j], parse);
            before + LineIncrements(lines[..j + 1], parse) == incs + AsSeq(inc)
            && Concat(incs + AsSeq(inc)) == Concat(incs) + (if inc.Some? then inc.value else "")
            && Partials(incs + AsSeq(inc)) == Partials(incs) + (if inc.Some? then [Concat(incs) + inc.value] else [])
  {
    var incs := before + LineIncrements(lines[..j], parse);
    var inc := LineIncrement(lines[j], parse);
    PrefixStep(lines, j);
    assert LineIncrements(lines[..j + 1], parse) == LineIncrements(lines[..j], parse) + AsSeq(inc);
    AppendAssociates(before, LineIncrements(lines[..j], parse), AsSeq(inc));
    if inc.Some? {
      DropLastOfAppend(incs, [inc.value]);
    } else {
      assert incs + [] == incs;
    }
  }

  /** The prefix of length `j + 1` ends with element `j`. */
  lemma PrefixStep<T>(s: seq<T>, j: nat)
    requires j < |s|
    ensures s[..j + 1] != [] && s[..j + 1][..j] == s[..j] && s[..j + 1][j] == s[j]
  {
  }

  lemma AppendAssociates<T>(a: seq<T>, b: seq<T>, c: seq<T>)
    ensures a + (b + c) == (a + b) + c
  {
  }

  /** One pass of the outer read loop: after chunk `i` the increments are
      those before it followed by the chunk's own. */
  lemma ChunkStep(chunks: seq<string>, i: nat, parse: string -> LineParse)
    requires i < |chunks|
    ensures StreamIncrements(chunks[..i + 1], parse)
            == StreamIncrements(chunks[..i], parse) + ChunkIncrements(chunks[i], parse)
    ensures var lines := Split(chunks[i], '\n'); lines[..|lines|] == lines && lines[..0] == []
  {
    PrefixStep(chunks, i);
  }

  /** Taking the last element off `a + b` takes it off `b`. */
  lemma DropLastOfAppend<T>(a: seq<T>, b: seq<T>)
    requires b != []
    ensures (a + b)[..|a + b| - 1] == a + b[..|b| - 1]
    ensures (a + b)[|a + b| - 1] == b[|b| - 1]
  {
  }

  lemma {:induction false} ConcatAppend(a: seq<string>, b: seq<string>)
    ensures Concat(a + b) == Concat(a) + Concat(b)
  {
    if b != [] {
      var n := |b| - 1;
      ConcatAppend(a, b[..n]);
      DropLastOfAppend(a, b);
      calc {
        Concat(a + b);
        Concat(a + b[..n]) + b[n];
        (Concat(a) + Concat(b[..n])) + b[n];
        Concat(a) + (Concat(b[..n]) + b[n]);
        Concat(a) + Concat(b);
      }
    } else {
      assert a + b == a;
    }
  }

  lemma {:induction false} LineIncrementsAppend(a: seq<string>, b: seq<string>, parse: string -> LineParse)
    ensures LineIncrements(a + b, parse) == LineIncrements(a, parse) + LineIncrements(b, parse)
  {
    if b != [] {
      var n := |b| - 1;
      LineIncrementsAppend(a, b[..n], parse);
      DropLastOfAppend(a, b);
    } else {
      assert a + b == a;
    }
  }

  lemma {:induction false} StreamIncrementsAppend(a: seq<string>, b: seq<string>, parse: string -> LineParse)
    ensures StreamIncrements(a + b, parse) == StreamIncrements(a, parse) + StreamIncrements(b, parse)
  {
    if b != [] {
      var n := |b| - 1;
      StreamIncrementsAppend(a, b[..n], parse);
      DropLastOfAppend(a, b);
    } else {
      assert a + b == a;
    }
  }

  /** Chunks are processed independently and in order: the text of a
      response is the text of its first part followed by that of the rest. */
  lemma AssembleAppend(a: seq<string>, b: seq<string>, parse: string -> LineParse)
    ensures Assemble(a + b, parse) == Assemble(a, parse) + Assemble(b, parse)
  {
    StreamIncrementsAppend(a, b, parse);
    ConcatAppend(StreamIncrements(a, parse), StreamIncrements(b, parse));
  }

  lemma {:induction false} ChunkLinesIncrements(chunks: seq<string>, parse: string -> LineParse)
    ensures StreamIncrements(chunks, parse) == LineIncrements(ChunkLines(chunks), parse)
  {
    if chunks != [] {
      var n := |chunks| - 1;
      ChunkLinesIncrements(chunks[..n], parse);
      LineIncrementsAppend(ChunkLines(chunks[..n]), Split(chunks[n], '\n'), parse);
    }
  }

  /** The final text is the in-order concatenation of the non-empty
      `message.content` of every non-blank, parsable line, where the lines are
      those of each chunk taken on its own. */
  lemma AssembleIsConcatenationOfLines(chunks: seq<string>, parse: string -> LineParse)
    ensures Assemble(chunks, parse) == Concat(LineIncrements(ChunkLines(chunks), parse))
  {
    ChunkLinesIncrements(chunks, parse);
  }

  /** A malformed line contributes nothing and does not stop the lines after
      it from contributing. */
  lemma MalformedLineSkipped(before: seq<string>, line: string, after: seq<string>, parse: string -> LineParse)
    requires parse(line) == Malformed
    ensures LineIncrements(before + [line] + after, parse)
            == LineIncrements(before, parse) + LineIncrements(after, parse)
  {
    var upTo := before + [line];
    assert LineIncrements(upTo, parse) == LineIncrements(before, parse) by {
      assert upTo[..|upTo| - 1] == before;
      assert LineIncrement(line, parse) == None;
    }
    LineIncrementsAppend(upTo, after, parse);
  }

  /** A chunk made of one line, with or without its newline, contributes
      what that line does. */
  lemma OneLineChunk(line: string, parse: string -> LineParse)
    requires '\n' !in line
    ensures Assemble([line], parse) == Concat(AsSeq(LineIncrement(line, parse)))
    ensures Assemble([line + "\n"], parse) == Concat(AsSeq(LineIncrement(line, parse)))
  {
    var inc := AsSeq(LineIncrement(line, parse));
    assert [line][..0] == [] && [line + "\n"][..0] == [];
    SplitWithoutSeparator(line, '\n');
    assert LineIncrements([line], parse) == LineIncrements([], parse) + inc by {
      assert [line][..0] == [];
    }
    SplitFirstPiece(line, '\n', "");
    assert line + "\n" + "" == line + "\n";
    assert Split("", '\n') == [""];
    assert LineIncrement("", parse) == None;
    assert LineIncrements([line, ""], parse) == LineIncrements([line], parse) + [] by {
      assert [line, ""][..1] == [line];
    }
    assert StreamIncrements([line], parse) == [] + ChunkIncrements(line, parse);
    assert StreamIncrements([line + "\n"], parse) == [] + ChunkIncrements(line + "\n", parse);
  }

  /** A chunk that holds a single malformed line leaves the text of the
      chunks before and after it as it would be without it. */
  lemma MalformedChunkSkipped(before: seq<string>, chunk: string, after: seq<string>, parse: string -> LineParse)
    requires '\n' !in chunk && parse(chunk) == Malformed
    ensures Assemble(before + [chunk] + after, parse) == Assemble(before, parse) + Assemble(after, parse)
  {
    var text := Assemble(before, parse);
    assert Assemble(before + [chunk], parse) == text by {
      assert Assemble([chunk], parse) == "" by {
        OneLineChunk(chunk, parse);
        assert LineIncrement(chunk, parse) == None;
      }
      AssembleAppend(before, [chunk], parse);
      assert text + "" == text;
    }
    AssembleAppend(before + [chunk], after, parse);
  }

  /** No carry-over between chunks: a line that parses as a whole but reaches
      the client cut in two by a chunk boundary yields two fragments that do
      not parse, and its content is lost. */
  lemma ChunkBoundaryLosesLine(head: string, tail: string, content: string, parse: string -> LineParse)
    requires '\n' !in head && '\n' !in tail && !AllWhitespace(head + tail)
    requires parse(head + tail) == Parsed(Some(content)) && content != ""
    requires parse(head) == Malformed && parse(tail) == Malformed
    ensures Assemble([head + tail], parse) == content
    ensures Assemble([head, tail], parse) == ""
  {
    assert '\n' !in head + tail;
    OneParsedLine(head + tail, content, parse);
    MalformedChunkSkipped([head], tail, [], parse);
    OneLineChunk(head, parse);
    assert LineIncrement(head, parse) == None;
    assert [head] + [tail] + [] == [head, tail];
    assert Assemble([], parse) == "";
  }

  /** While the reply streams in, each published value extends the previous
      one, and the last is the whole concatenation. */
  lemma {:induction false} PartialsGrow(parts: seq<string>)
    requires "" !in parts
    ensures |Partials(parts)| == |parts|
    ensures forall k :: 0 <= k < |parts| - 1 ==>
              |Partials(parts)[k]| < |Partials(parts)[k + 1]|
              && Partials(parts)[k] == Partials(parts)[k + 1][..|Partials(parts)[k]|]
    ensures parts != [] ==> Partials(parts)[|parts| - 1] == Concat(parts)
  {
    if parts != [] {
      var n := |parts| - 1;
      PartialsGrow(parts[..n]);
      if n > 0 {
        assert Partials(parts[..n])[n - 1] == Concat(parts[..n]);
        assert Concat(parts) == Concat(parts[..n]) + parts[n];
      }
    }
  }

  /** The values the read loop publishes for a response: one per increment,
      each strictly extending the one before, the last being the whole
      assembled text. */
  lemma PublishedGrow(chunks: seq<string>, parse: string -> LineParse)
    ensures var published := Partials(StreamIncrements(chunks, parse));
            |published| == |StreamIncrements(chunks, parse)|
            && (forall k :: 0 <= k < |published| - 1 ==>
                  |published[k]| < |published[k + 1]|
                  && published[k] == published[k + 1][..|published[k]|])
            && (published != [] ==> published[|published| - 1] == Assemble(chunks, parse))
  {
    PartialsGrow(StreamIncrements(chunks, parse));
  }

  /** A chunk holding one line that parses with a non-empty
      `message.content`, with or without its newline, contributes exactly
      that content. */
  lemma OneParsedLine(line: string, content: string, parse: string -> LineParse)
    requires '\n' !in line && !AllWhitespace(line)
    requires parse(line) == Parsed(Some(content)) && content != ""
    ensures Assemble([line], parse) == content
    ensures Assemble([line + "\n"], parse) == content
  {
    OneLineChunk(line, parse);
    assert LineIncrement(line, parse) == Some(content);
    assert Concat([content]) == Concat([]) + content;
  }

  /** The chunks `'{"message":{"content":"Hel"}}\n'` and
      `'{"message":{"content":"lo"}}\n'` give `"Hello"`. */
  lemma ExampleHello(first: string, second: string, parse: string -> LineParse)
    requires '\n' !in first && '\n' !in second
    requires !AllWhitespace(first) && !AllWhitespace(second)
    requires parse(first) == Parsed(Some("Hel")) && parse(second) == Parsed(Some("lo"))
    ensures Assemble([first + "\n", second + "\n"], parse) == "Hello"
  {
    OneParsedLine(first, "Hel", parse);
    OneParsedLine(second, "lo", parse);
    AssembleAppend([first + "\n"], [second + "\n"], parse);
    assert [first + "\n"] + [second + "\n"] == [first + "\n", second + "\n"];
  }
}
