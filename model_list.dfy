/** The `/api/models` route: it runs `ollama list` and answers with the
    names of the installed models, taken from the first column of the
    command's table, or with an error payload when the command fails.  The
    child process is not modelled: its outcome is a parameter. */
module ModelList {
  import opened JsStrings

  /** What the `exec` callback receives: either the command's standard output,
      or an error together with whatever the command wrote to standard error. */
  datatype ExecOutcome =
    | Completed(stdout: string)
    | Failed(stderr: string, message: string)

  /** The JSON body of the response: `{ models }` or `{ error }`. */
  datatype Payload = Models(models: seq<string>) | Error(error: string)

  datatype Response = Response(status: nat, payload: Payload)

  /** `stdout.split('\n')`. */
  function Lines(stdout: string): seq<string> {
    Split(stdout, '\n')
  }

  /** `.filter(Boolean)` on strings: keeps the non-empty ones, in order. */
  function KeepNonEmpty(xs: seq<string>): (ys: seq<string>)
    ensures |ys| <= |xs|
    ensures forall k :: 0 <= k < |ys| ==> ys[k] != ""
  {
    if xs == [] then []
    else (if xs[0] != "" then [xs[0]] else []) + KeepNonEmpty(xs[1..])
  }

  /** The positions of the non-empty strings of `xs`, counted from `base`,
      in increasing order: the reference that `KeepNonEmpty` is measured
      against. */
  function NonEmptyPositions(xs: seq<string>, base: nat): seq<nat> {
    if xs == [] then []
    else (if xs[0] != "" then [base] else []) + NonEmptyPositions(xs[1..], base + 1)
  }

  /** The name shown for one line of the table: `line.trim().split(/\s+/)[0]`. */
  function ModelName(line: string): string {
    FirstToken(Trim(line))
  }

  /** The lines that name a model: all lines but the first (the table's
      header), empty lines dropped. */
  function ModelLines(stdout: string): seq<string> {
    KeepNonEmpty(Lines(stdout)[1..])
  }

  /** The pipeline of the route: one name per model line, in order. */
  function ParseModelList(stdout: string): (models: seq<string>)
    ensures |models| == |ModelLines(stdout)|
    ensures forall k :: 0 <= k < |models| ==> models[k] == ModelName(ModelLines(stdout)[k])
  {
    var lines := ModelLines(stdout);
    seq(|lines|, k requires 0 <= k < |lines| => ModelName(lines[k]))
  }

  /** The route's answer for one outcome of `ollama list`. */
  function Get(outcome: ExecOutcome): (resp: Response)
    ensures resp.status == 200 <==> outcome.Completed?
    ensures resp.status == 200 || resp.status == 500
    ensures outcome.Completed? ==> resp.payload == Models(ParseModelList(outcome.stdout))
    ensures outcome.Failed? && outcome.stderr != "" ==> resp.payload == Error(outcome.stderr)
    ensures outcome.Failed? && outcome.stderr == "" ==> resp.payload == Error(outcome.message)
  {
    match outcome
    case Failed(stderr, message) =>
      Response(500, Error(if stderr != "" then stderr else message))
    case Completed(stdout) =>
      Response(200, Models(ParseModelList(stdout)))
  }

  /** The k-th string kept is the string at the k-th recorded position. */
  lemma {:induction false} KeepNonEmptyPicks(xs: seq<string>, base: nat)
    ensures var pos := NonEmptyPositions(xs, base);
            |KeepNonEmpty(xs)| == |pos|
            && forall k :: 0 <= k < |pos| ==>
                 base <= pos[k] < base + |xs| && KeepNonEmpty(xs)[k] == xs[pos[k] - base]
  {
    if xs != [] {
      KeepNonEmptyPicks(xs[1..], base + 1);
    }
  }

  /** The recorded positions increase strictly. */
  lemma {:induction false} NonEmptyPositionsIncrease(xs: seq<string>, base: nat)
    ensures forall k, l :: 0 <= k < l < |NonEmptyPositions(xs, base)| ==>
              NonEmptyPositions(xs, base)[k] < NonEmptyPositions(xs, base)[l]
  {
    if xs != [] {
      var rest := NonEmptyPositions(xs[1..], base + 1);
      var head: seq<nat> := if xs[0] != "" then [base] else [];
      NonEmptyPositionsIncrease(xs[1..], base + 1);
      NonEmptyPositionsBounds(xs[1..], base + 1);
      assert NonEmptyPositions(xs, base) == head + rest;
      forall k, l | 0 <= k < l < |head + rest| ensures (head + rest)[k] < (head + rest)[l] {
        assert (head + rest)[l] == rest[l - |head|] && rest[l - |head|] in rest;
        if k >= |head| {
          assert (head + rest)[k] == rest[k - |head|];
        }
      }
    }
  }

  /** The recorded positions lie within the range of `xs`. */
  lemma {:induction false} NonEmptyPositionsBounds(xs: seq<string>, base: nat)
    ensures forall p :: p in NonEmptyPositions(xs, base) ==> base <= p < base + |xs|
  {
    if xs != [] {
      NonEmptyPositionsBounds(xs[1..], base + 1);
    }
  }

  /** Every non-empty string, and no other, has its position recorded. */
  lemma {:induction false} NonEmptyPositionsComplete(xs: seq<string>, base: nat)
    ensures forall j :: 0 <= j < |xs| ==> (xs[j] != "" <==> base + j in NonEmptyPositions(xs, base))
  {
    if xs != [] {
      var rest := NonEmptyPositions(xs[1..], base + 1);
      var head: seq<nat> := if xs[0] != "" then [base] else [];
      NonEmptyPositionsComplete(xs[1..], base + 1);
      NonEmptyPositionsBounds(xs[1..], base + 1);
      assert NonEmptyPositions(xs, base) == head + rest;
      forall j | 0 <= j < |xs|
        ensures xs[j] != "" <==> base + j in head + rest
      {
        if j == 0 {
          assert base !in rest;
        } else {
          assert xs[j] == xs[1..][j - 1];
          assert base + j !in head;
        }
      }
    }
  }

  /** The header line never yields a name: whatever the first line says, the
      result is that of the lines after it. */
  lemma HeaderIsIgnored(header: string, body: string)
    requires '\n' !in header
    ensures ParseModelList(header + "\n" + body) == ParseModelList("\n" + body)
  {
    SplitFirstPiece(header, '\n', body);
    SplitFirstPiece("", '\n', body);
    assert "" + "\n" + body == "\n" + body;
  }

  /** Empty output, or a header with no line after it, lists no model. */
  lemma HeaderOnlyListsNothing(stdout: string)
    requires '\n' !in stdout
    ensures ParseModelList(stdout) == []
  {
    SplitWithoutSeparator(stdout, '\n');
  }

  /** The positions, in the list of lines, of the lines that name a model. */
  function ModelPositions(stdout: string): seq<nat> {
    NonEmptyPositions(Lines(stdout)[1..], 1)
  }

  /** One model per non-empty line after the header, and the k-th model is
      the name on the line at the k-th such position. */
  lemma ModelsFollowLines(stdout: string)
    ensures |ParseModelList(stdout)| == |ModelPositions(stdout)|
    ensures forall k :: 0 <= k < |ModelPositions(stdout)| ==>
              1 <= ModelPositions(stdout)[k] < |Lines(stdout)|
              && Lines(stdout)[ModelPositions(stdout)[k]] != ""
              && ParseModelList(stdout)[k] == ModelName(Lines(stdout)[ModelPositions(stdout)[k]])
  {
    var lines := Lines(stdout);
    var pos := ModelPositions(stdout);
    KeepNonEmptyPicks(lines[1..], 1);
    forall k | 0 <= k < |pos| ensures lines[pos[k]] == lines[1..][pos[k] - 1] { }
  }

  /** The models keep the order of their lines. */
  lemma ModelPositionsIncrease(stdout: string)
    ensures forall k, l :: 0 <= k < l < |ModelPositions(stdout)| ==>
              ModelPositions(stdout)[k] < ModelPositions(stdout)[l]
  {
    NonEmptyPositionsIncrease(Lines(stdout)[1..], 1);
  }

  /** Every non-empty line after the header, and no other line, names a
      model. */
  lemma ModelPositionsComplete(stdout: string)
    ensures forall j :: 1 <= j < |Lines(stdout)| ==>
              (Lines(stdout)[j] != "" <==> j in ModelPositions(stdout))
  {
    var lines := Lines(stdout);
    NonEmptyPositionsComplete(lines[1..], 1);
    forall j | 1 <= j < |lines| ensures lines[j] == lines[1..][j - 1] { }
  }

  /** A model name is the first whitespace-free token of the trimmed line:
      a prefix of it, without whitespace, and empty exactly when the line is
      blank. */
  lemma ModelNameShape(line: string)
    ensures var name := ModelName(line);
            NoWhitespace(name)
            && name == Trim(line)[..|name|]
            && (|name| == |Trim(line)| || IsWhitespace(Trim(line)[|name|]))
            && (name == "" <==> AllWhitespace(line))
  {
    TrimBlank(line);
  }

  /** A line of spaces survives `filter(Boolean)` and is listed as the empty
      name. */
  lemma BlankLineListsEmptyName(header: string, line: string)
    requires '\n' !in header && '\n' !in line
    requires line != "" && AllWhitespace(line)
    ensures ParseModelList(header + "\n" + line) == [""]
  {
    SplitFirstPiece(header, '\n', line);
    SplitWithoutSeparator(line, '\n');
    TrimBlank(line);
    assert Lines(header + "\n" + line)[1..] == [line];
    assert KeepNonEmpty([line]) == [line] + KeepNonEmpty([]);
  }
}
