# Ollama chat client: the reply assembler and the model list

This project models the only logic of a small Next.js chat front end for a
local Ollama server, and proves properties about it. There are two pieces.

- **The chat page's session state and its send handler**
  (`src/app/Chat.js`). A blank input is ignored. Otherwise the user's
  message is appended, an empty assistant message is appended, and the
  streamed reply is read chunk by chunk. Each chunk is split on newlines on
  its own, and blank lines are skipped. Every other line goes to
  `JSON.parse`. Each non-empty `message.content` is appended to an
  accumulator, which then replaces the last transcript entry. Lines that do
  not parse are logged and skipped. The page also has a Reset button and a
  file upload that appends to the input. The model list fetched from the
  server picks the default model.
- **The `/api/models` route** (`src/app/api/models/route.js`). It takes the
  output of `ollama list` and turns it into model names: it splits on
  newlines, drops the header, drops empty lines, and keeps the first token
  of each trimmed line. On failure it answers with an error payload and
  status 500.

The files are:

- `js_strings.dfy` (module `JsStrings`): the JavaScript string operations
  the code relies on. These are `split` on one character, `trim`, and the
  first element of `split(/\s+/)`. The whitespace set is ECMAScript's
  WhiteSpace and LineTerminator characters.
- `model_list.dfy` (module `ModelList`): the route's pipeline as pure
  functions, the error-payload choice, and lemmas on length, order and
  token shape.
- `stream.dfy` (module `Stream`): a pure specification of what the read
  loop produces. `Assemble` is the final text and `Partials` lists the
  successive values of the accumulator. The lemmas cover in-order
  concatenation, malformed lines, and chunk boundaries.
- `chat.dfy` (module `Chat`): the class `ChatSession` with the fields of the
  page's state. Its handlers are methods. `SendMessage` runs the two nested
  read loops, through `ReadBody` and `ReadChunk`, and is proved against
  `Stream`.

Nothing is executed. `fetch`, the child process, the file reader and
`JSON.parse` are parameters of the model:

- the reply of the chat server is a `Reply` value;
- the outcome of `ollama list` is an `ExecOutcome` value;
- the chosen file is an `Option<string>`;
- `JSON.parse(line)` followed by `message?.content` is a function
  `parse: string -> LineParse`.

## Model

| member | source | states |
|---|---|---|
| JsStrings.Split | src/app/api/models/route.js:11 | `split('\n')` always yields at least one piece, and no piece contains the separator |
| JsStrings.JoinSplit | src/app/api/models/route.js:11 | splitting loses nothing: joining the pieces with the separator gives back the input |
| JsStrings.SplitCount | src/app/api/models/route.js:11 | there is exactly one more piece than there are newlines |
| JsStrings.SplitWithoutSeparator | src/app/api/models/route.js:11 | a string without a newline is a single piece |
| JsStrings.SplitFirstPiece | src/app/api/models/route.js:11 | a first line ending in a newline comes off as the first piece, and the rest are the pieces of the remainder |
| JsStrings.TrimStart | src/app/api/models/route.js:15 | `trimStart` returns a suffix, removes only whitespace, and leaves a result that is empty or starts with non-whitespace |
| JsStrings.TrimEnd | src/app/api/models/route.js:15 | `trimEnd` returns a prefix, removes only whitespace, and leaves a result that is empty or ends with non-whitespace |
| JsStrings.Trim | src/app/api/models/route.js:15 | `trim` never lengthens, and a non-empty result starts and ends with non-whitespace |
| JsStrings.TrimIsInfix | src/app/api/models/route.js:15 | `trim` returns a contiguous part of the string, with only whitespace before and after it |
| JsStrings.TrimBlank | src/app/Chat.js:45 | `s.trim()` is empty (falsy) exactly when `s` is all whitespace, which is the guard of `sendMessage` and of each line |
| JsStrings.FirstToken | src/app/api/models/route.js:15 | `split(/\s+/)[0]` is a whitespace-free prefix that stops at the first whitespace or at the end |
| ModelList.KeepNonEmpty | src/app/api/models/route.js:11 | `filter(Boolean)` keeps no empty string and never lengthens |
| ModelList.KeepNonEmptyPicks | src/app/api/models/route.js:11 | the k-th kept string is the string at the k-th recorded non-empty position |
| ModelList.NonEmptyPositionsIncrease | src/app/api/models/route.js:11 | the kept positions increase strictly, so the filter preserves order |
| ModelList.NonEmptyPositionsBounds | src/app/api/models/route.js:11 | every kept position lies within the input |
| ModelList.NonEmptyPositionsComplete | src/app/api/models/route.js:11 | a position is kept if and only if its string is non-empty |
| ModelList.ParseModelList | src/app/api/models/route.js:10-15 | one name per surviving line, and the k-th name is the first token of the k-th surviving line, trimmed |
| ModelList.Get | src/app/api/models/route.js:6-20 | status 200 with the parsed names exactly when the command succeeds; otherwise status 500 with `stderr` if it is non-empty, else the error message |
| ModelList.HeaderIsIgnored | src/app/api/models/route.js:11 | whatever the first line says, the result is the same as with an empty first line |
| ModelList.HeaderOnlyListsNothing | src/app/api/models/route.js:10-15 | empty output, or a header with no newline, lists no model |
| ModelList.ModelsFollowLines | src/app/api/models/route.js:10-15 | the number of models equals the number of non-empty lines after the header, and the k-th model is the name on the k-th such line |
| ModelList.ModelPositionsIncrease | src/app/api/models/route.js:15 | models appear in the order of their lines |
| ModelList.ModelPositionsComplete | src/app/api/models/route.js:11 | a line after the header names a model if and only if it is non-empty |
| ModelList.ModelNameShape | src/app/api/models/route.js:15 | a name has no whitespace, is a prefix of the trimmed line that stops at the first whitespace, and is empty exactly when the line is blank |
| ModelList.BlankLineListsEmptyName | src/app/api/models/route.js:11-15 | a whitespace-only line survives `filter(Boolean)` and is listed as the name `""` |
| Stream.LineIncrement | src/app/Chat.js:78-91 | a line contributes text if and only if it is not blank, parses, and has a non-empty `message.content`, and it contributes exactly that content |
| Stream.LineIncrements | src/app/Chat.js:77-96 | the lines of a chunk contribute at most one non-empty increment each |
| Stream.StreamIncrements | src/app/Chat.js:72-97 | no increment of a response is empty |
| Stream.LineStep | src/app/Chat.js:77-90 | reading one line extends the increments by that line's increment, the accumulator by its text, and the published values by the new accumulator |
| Stream.ChunkStep | src/app/Chat.js:72-77 | reading one chunk appends that chunk's own increments |
| Stream.ConcatAppend | src/app/Chat.js:82 | concatenation distributes over appending increments |
| Stream.LineIncrementsAppend | src/app/Chat.js:77-96 | the increments of two runs of lines are those of the first run followed by those of the second |
| Stream.StreamIncrementsAppend | src/app/Chat.js:72-97 | the increments of two runs of chunks are those of the first run followed by those of the second |
| Stream.AssembleAppend | src/app/Chat.js:72-97 | chunks are processed independently and in order: the text of `a + b` is the text of `a` followed by the text of `b` |
| Stream.ChunkLinesIncrements | src/app/Chat.js:72-97 | the response's increments are those of all its chunks' lines, read left to right |
| Stream.AssembleIsConcatenationOfLines | src/app/Chat.js:72-97 | the final text is the in-order concatenation of the contents of the contributing lines, each chunk split on its own |
| Stream.MalformedLineSkipped | src/app/Chat.js:79-94 | a line that fails to parse contributes nothing and does not stop the lines after it |
| Stream.OneLineChunk | src/app/Chat.js:76-95 | a one-line chunk, with or without its trailing newline, contributes exactly that line's increment |
| Stream.MalformedChunkSkipped | src/app/Chat.js:72-97 | a chunk made of one malformed line leaves the text of the chunks around it unchanged |
| Stream.ChunkBoundaryLosesLine | src/app/Chat.js:76-77 | a line whose two halves arrive in separate chunks, and that is malformed when cut, contributes nothing, though the whole line would contribute its content |
| Stream.PartialsGrow | src/app/Chat.js:82-89 | each published value strictly extends the previous one as a prefix, and the last one is the whole concatenation |
| Stream.PublishedGrow | src/app/Chat.js:82-89 | for a whole response: one published value per increment, each extending the previous, the last equal to the assembled text |
| Stream.OneParsedLine | src/app/Chat.js:76-91 | a one-line chunk that parses with non-empty content contributes exactly that content |
| Stream.ExampleHello | src/app/Chat.js:72-97 | the chunks carrying `"Hel"` and then `"lo"`, each ending in a newline, give `"Hello"` |
| Chat.ChatSession.constructor | src/app/Chat.js:11-15 | empty transcript and input, not loading, model `"mistral"`, no models |
| Chat.ChatSession.ReceiveModelList | src/app/Chat.js:18-27 | a non-empty model list replaces the models and selects its first entry; an empty list or an error payload changes nothing |
| Chat.ChatSession.ResetChat | src/app/Chat.js:102-105 | the transcript becomes empty, and nothing else changes |
| Chat.ChatSession.HandleFileUpload | src/app/Chat.js:107-113 | a chosen file's text is appended to the input after `"\n\n"`; without a file the input is unchanged |
| Chat.ChatSession.ReplaceLast | src/app/Chat.js:83-90 | the last entry becomes the assistant's text so far, and the length and every other entry are unchanged |
| Chat.ChatSession.ReadChunk | src/app/Chat.js:76-96 | after one chunk, the accumulator and the published values are those of the specification, extended by the chunk's own increments, and only the last entry holds the accumulator |
| Chat.ChatSession.ReadBody | src/app/Chat.js:72-97 | after all chunks, the accumulator is `Assemble(chunks)` and the published values are its `Partials`; the entries before the last are untouched |
| Chat.ChatSession.SendMessage | src/app/Chat.js:44-100 | blank input changes nothing. Otherwise: the request carries the model and the transcript with the user message, and the input is cleared. A rejected fetch leaves the user message, with loading on. A missing body leaves an empty assistant message, with loading on. A body leaves the assembled text as the last entry, with loading off only when the reader reports the end |

## Left out

- The client is meant to produce the same final text however chunk boundaries split the lines. The code does not do this: it splits each chunk on its own, with no carry-over. The model follows the code, and `Stream.ChunkBoundaryLosesLine` shows a line lost at a boundary.
- Persistence in `localStorage` (src/app/Chat.js:29-36, 104) is not modelled: it is browser storage driven by effect scheduling.
- React's batched state updates, and the closure that captures `messages`, `model` and `fullMessage`, are not modelled. Each handler runs to completion before the next event.
- Overlapping sends are not modelled, such as Enter pressed while a reply streams in (src/app/Chat.js:194-198). The send button's `disabled` attribute (line 206) is the only check on `isLoading`, so `SendMessage` has no `isLoading` precondition.
- `TextDecoder` is not modelled: chunks arrive as decoded strings, so a multi-byte character split across chunks is not represented.
- `JSON.parse` and the read of `message?.content` are a parameter `parse`. A non-string truthy `content`, which `+=` would coerce, is out of scope.
- The network and the child process are not modelled: `fetch`, `reader.read()` and `exec('ollama list')`. Their outcomes are values (`Reply`, `StreamEnd`, `ExecOutcome`).
- `console.error` for a malformed line is not modelled: the model only skips the line.
- Rendering is not modelled: markdown, highlighting, scrolling, the `<select>` and the textarea's `onChange`. Nor is `src/app/CodeBlock.tsx`, whose clipboard and timer code is UI glue.
- `fetch('/api/models')` itself is not modelled: its rejection, and a response body that is not JSON. `ReceiveModelList` takes the route's `Response`.
