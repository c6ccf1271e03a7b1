/** The state of the chat page and the handlers that change it: sending a
    message and reading the streamed reply into the transcript, resetting
    the transcript, appending an uploaded file to the input, and taking the
    default model from the model list.  Network calls are not made here: the
    reply of the chat server and the answer of the model route are given to
    the handlers as values, and each handler runs to completion before the
    next one starts. */
module Chat {
  import opened JsStrings
  import opened Stream
  import ModelList

  datatype Role = User | Assistant

  datatype Message = Message(role: Role, content: string)

  /** The JSON body posted to the chat server. */
  datatype ChatRequest = ChatRequest(model: string, messages: seq<Message>, stream: bool)

  /** How reading the reply ends: the reader reports `done`, or a read fails
      (its rejection escapes the handler). */
  datatype StreamEnd = Done | ReadFailed

  /** What `fetch` gives back: it rejects, or the response has no body to
      read, or the body yields `chunks` (already decoded) and then ends. */
  datatype Reply =
    | FetchRejected
    | NoBody
    | Body(chunks: seq<string>, end: StreamEnd)

  /** The model selected before the model list has arrived. */
  const DefaultModel: string := "mistral"

  class ChatSession {
    var messages: seq<Message>
    var input: string
    var isLoading: bool
    var model: string
    var models: seq<string>

    /** The page's initial state. */
    constructor ()
      ensures messages == [] && input == "" && !isLoading
      ensures model == DefaultModel && models == []
    {
      messages := [];
      input := "";
      isLoading := false;
      model := DefaultModel;
      models := [];
    }

    /** The answer of the model route arrives: a non-empty list replaces the
        models and selects its first entry; an empty list or an error payload
        leaves everything as it was. */
    method ReceiveModelList(resp: ModelList.Response)
      modifies this
      ensures resp.payload.Models? && resp.payload.models != [] ==>
                models == resp.payload.models && model == resp.payload.models[0]
      ensures !(resp.payload.Models? && resp.payload.models != []) ==>
                models == old(models) && model == old(model)
      ensures messages == old(messages) && input == old(input) && isLoading == old(isLoading)
    {
      if resp.payload.Models? && |resp.payload.models| > 0 {
        models := resp.payload.models;
        model := resp.payload.models[0];
      }
    }

    /** The Reset button empties the transcript. */
    method ResetChat()
      modifies this
      ensures messages == []
      ensures input == old(input) && isLoading == old(isLoading)
      ensures model == old(model) && models == old(models)
    {
      messages := [];
    }

    /** A chosen text file is appended to the input after a blank line; when
        no file is chosen the input stays as it is. */
    method HandleFileUpload(file: Option<string>)
      modifies this
      ensures file.Some? ==> input == old(input) + "\n\n" + file.value
      ensures file.None? ==> input == old(input)
      ensures messages == old(messages) && isLoading == old(isLoading)
      ensures model == old(model) && models == old(models)
    {
      if file.Some? {
        input := input + "\n\n" + file.value;
      }
    }

    /** One streaming update: the last entry of the transcript becomes the
        assistant's text so far; its length and every other entry stay. */
    method ReplaceLast(content: string)
      requires messages != []
      modifies this`messages
      ensures |messages| == |old(messages)|
      ensures forall i :: 0 <= i < |messages| - 1 ==> messages[i] == old(messages)[i]
      ensures messages[|messages| - 1] == Message(Assistant, content)
      ensures messages == old(messages)[..|old(messages)| - 1] + [Message(Assistant, content)]
    {
      messages := messages[..|messages| - 1] + [Message(Assistant, content)];
    }

    /** The body of the read loop for one chunk: the chunk is split on
        newlines on its own, and for each line in turn a blank line is
        skipped, a line that does not parse is logged and skipped, and a
        non-empty `message.content` is appended to the accumulator, which then
        replaces the last entry and is published. */
    method ReadChunk(chunk: string, parse: string -> LineParse, ghost before: seq<string>,
                     ghost earlier: seq<Message>, acc: string, pub: seq<string>)
      returns (acc': string, pub': seq<string>)
      requires acc == Concat(before) && pub == Partials(before)
      requires messages == earlier + [Message(Assistant, acc)]
      modifies this`messages
      ensures acc' == Concat(before + ChunkIncrements(chunk, parse))
      ensures pub' == Partials(before + ChunkIncrements(chunk, parse))
      ensures messages == earlier + [Message(Assistant, acc')]
    {
      var lines := Split(chunk, '\n');
      acc', pub' := acc, pub;
      var j := 0;
      assert lines[..0] == [];
      assert before + [] == before;
      while j < |lines|
        invariant 0 <= j <= |lines|
        invariant acc' == Concat(before + LineIncrements(lines[..j], parse))
        invariant pub' == Partials(before + LineIncrements(lines[..j], parse))
        invariant messages == earlier + [Message(Assistant, acc')]
      {
        LineStep(before, lines, j, parse);
        var line := lines[j];
        ghost var inc := LineIncrement(line, parse);
        if Trim(line) == "" {
          assert inc == None by { TrimBlank(line); }
        } else {
          match parse(line)
          case Malformed =>
            // the parse error is logged and the loop goes on
            assert inc == None;
          case Parsed(content) =>
            if content.Some? && content.value != "" {
              assert inc == Some(content.value) by { TrimBlank(line); }
              assert messages[..|messages| - 1] == earlier;
              acc' := acc' + content.value;
              ReplaceLast(acc');
              pub' := pub' + [acc'];
            } else {
              assert inc == None;
            }
        }
        j := j + 1;
      }
      assert lines[..|lines|] == lines;
    }

    /** The read loop: the chunks of the body in order, each read by
        `ReadChunk`, the accumulated text kept in the last entry. */
    method ReadBody(chunks: seq<string>, parse: string -> LineParse, ghost earlier: seq<Message>)
      returns (fullMessage: string, published: seq<string>)
      requires messages == earlier + [Message(Assistant, "")]
      modifies this`messages
      ensures fullMessage == Assemble(chunks, parse)
      ensures published == Partials(StreamIncrements(chunks, parse))
      ensures messages == earlier + [Message(Assistant, fullMessage)]
    {
      fullMessage, published := "", [];
      var i := 0;
      assert chunks[..0] == [];
      while i < |chunks|
        invariant 0 <= i <= |chunks|
        invariant fullMessage == Concat(StreamIncrements(chunks[..i], parse))
        invariant published == Partials(StreamIncrements(chunks[..i], parse))
        invariant messages == earlier + [Message(Assistant, fullMessage)]
      {
        ChunkStep(chunks, i, parse);
        fullMessage, published := ReadChunk(chunks[i], parse, StreamIncrements(chunks[..i], parse),
                                            earlier, fullMessage, published);
        i := i + 1;
      }
      assert chunks[..|chunks|] == chunks;
    }

    /** The send handler.  Blank input (whitespace only) changes nothing.
        Otherwise the user's message is appended and the input cleared, the
        request carries the model and the whole transcript, an empty
        assistant message is appended once the response is there, and every
        increment read from the body replaces that last message with the text
        so far (`published` lists those texts in order).  Loading ends only
        when the reader reports the end of the body: a rejected fetch, a
        missing body and a failed read leave it on. */
    method SendMessage(reply: Reply, parse: string -> LineParse)
      returns (request: Option<ChatRequest>, published: seq<string>)
      modifies this
      ensures model == old(model) && models == old(models)
      ensures AllWhitespace(old(input)) ==>
                request == None && published == []
                && messages == old(messages) && input == old(input) && isLoading == old(isLoading)
      ensures !AllWhitespace(old(input)) ==>
                request == Some(ChatRequest(old(model), old(messages) + [Message(User, old(input))], true))
                && input == ""
      ensures !AllWhitespace(old(input)) && reply.FetchRejected? ==>
                messages == old(messages) + [Message(User, old(input))]
                && isLoading && published == []
      ensures !AllWhitespace(old(input)) && reply.NoBody? ==>
                messages == old(messages) + [Message(User, old(input))] + [Message(Assistant, "")]
                && isLoading && published == []
      ensures !AllWhitespace(old(input)) && reply.Body? ==>
                messages == old(messages) + [Message(User, old(input))]
                            + [Message(Assistant, Assemble(reply.chunks, parse))]
                && published == Partials(StreamIncrements(reply.chunks, parse))
                && isLoading == (reply.end == ReadFailed)
    {
      request, published := None, [];
      ghost var blank := AllWhitespace(input);
      assert blank <==> Trim(input) == "" by { TrimBlank(input); }
      if Trim(input) == "" {
        return;
      }
      var newMessages := messages + [Message(User, input)];
      messages := newMessages;
      input := "";
      isLoading := true;
      request := Some(ChatRequest(model, newMessages, true));

      if reply.FetchRejected? {
        return;
      }
      messages := newMessages + [Message(Assistant, "")];
      if reply.NoBody? {
        return;
      }

      var fullMessage;
      fullMessage, published := ReadBody(reply.chunks, parse, newMessages);
      if reply.end == Done {
        isLoading := false;
      }
    }
  }
}
