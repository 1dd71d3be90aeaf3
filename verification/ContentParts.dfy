/**
 Reading and rewriting the current text of a request or response
 (gateway-core/plugins/utils.ts, `getCurrentContentPart` and `setCurrentContentPart`).

 The value model comes first, with the laws; the object model after it shows which of
 the caller's JSON objects a write touches.  `extra` stands for properties that are
 carried along unread; None stands for null and undefined; `Threw` for a TypeError.
 */
module ContentParts {
  import opened Wrappers

  type Extra = map<string, string>
  type Text = Option<string>
  datatype Result<T> = Ok(value: T) | Threw

  datatype RequestType = ChatComplete | Messages | Complete | Embed | OtherType

  datatype Part = Part(text: Text, extra: Extra)
  datatype Content = Plain(text: Text) | Parts(parts: seq<Part>)
  datatype Message = Message(content: Content, extra: Extra)
  datatype Prompt = One(text: Text) | Many(texts: seq<Text>)
  datatype Request = Request(messages: seq<Message>, prompt: Prompt, input: Prompt, extra: Extra)

  datatype Choice = Choice(content: Text, text: Text, extra: Extra)
  datatype Item = Block(text: Text, extra: Extra) | Bare(s: string) | Hole   // Hole: an undefined array element
  datatype Response = Response(choices: seq<Choice>, content: seq<Item>, extra: Extra)

  // ── JavaScript's `||` ──

  function Or(t: Text, prior: Text): Text {
    if Truthy(t) then t else prior
  }

  /** `texts[i]`, undefined past the end. */
  function At(texts: seq<Text>, i: nat): Text {
    if i < |texts| then texts[i] else None
  }

  // ── Requests ──

  function PromptTexts(p: Prompt): seq<Text> {
    match p
    case One(t) => [t]
    case Many(ts) => ts
  }

  function ContentTexts(c: Content): (r: seq<Text>) {
    match c
    case Plain(t) => [t]
    case Parts(ps) => seq(|ps|, i requires 0 <= i < |ps| => Or(ps[i].text, Some("")))
  }

  function GetRequest(x: Request, kind: RequestType): Result<seq<Text>> {
    match kind
    case ChatComplete | Messages => if x.messages == [] then Threw
    else Ok(ContentTexts(x.messages[|x.messages| - 1].content))
    case Complete => Ok(PromptTexts(x.prompt))
    case Embed => Ok(PromptTexts(x.input))
    case OtherType => Ok([])
  }

  function SetContent(c: Content, texts: seq<Text>): Content {
    match c
    case Plain(t) => Plain(Or(At(texts, 0), t))
    case Parts(ps) => Parts(seq(|ps|, i requires 0 <= i < |ps| => Part(Or(At(texts, i), ps[i].text), ps[i].extra)))
  }

  function SetPrompt(p: Prompt, texts: seq<Text>): Prompt {
    match p
    case One(_) => One(At(texts, 0))
    case Many(ts) => Many(seq(|texts|, i requires 0 <= i < |texts| => Or(texts[i], At(ts, i))))
  }

  /** A request with no message keeps its empty list: the write goes to index -1. */
  function SetRequest(x: Request, kind: RequestType, texts: seq<Text>): Request {
    match kind
    case ChatComplete | Messages =>
      if x.messages == [] then x
      else
        var n := |x.messages| - 1;
        x.(messages := x.messages[n := x.messages[n].(content := SetContent(x.messages[n].content, texts))])
    case Complete => x.(prompt := SetPrompt(x.prompt, texts))
    case _ => x
  }

  /** Entry by entry: the new text where there is one, the old text otherwise. */
  function Merge(texts: seq<Text>, prior: seq<Text>, length: nat): (r: seq<Text>)
    ensures |r| == length
  {
    seq(length, i requires 0 <= i < length => Or(At(texts, i), At(prior, i)))
  }

  ghost predicate AllTruthy(texts: seq<Text>) {
    forall i | 0 <= i < |texts| :: Truthy(texts[i])
  }

  /** What a message reads back after any write: the merge, at the old length. */
  lemma MessageReadsMerge(x: Request, kind: RequestType, texts: seq<Text>)
    requires (kind.ChatComplete? || kind.Messages?) && x.messages != []
    ensures var prior := GetRequest(x, kind).value;
            GetRequest(SetRequest(x, kind, texts), kind) == Ok(Merge(texts, prior, |prior|))
  {
    var c := x.messages[|x.messages| - 1].content;
    assert ContentTexts(SetContent(c, texts)) == Merge(texts, ContentTexts(c), |ContentTexts(c)|);
  }

  /** What a prompt reads back: a list takes the length of the write; a string is simply replaced. */
  lemma PromptReadsMerge(x: Request, texts: seq<Text>)
    requires texts != []
    ensures GetRequest(SetRequest(x, Complete, texts), Complete)
         == Ok(if x.prompt.One? then [texts[0]] else Merge(texts, x.prompt.texts, |texts|))
  {
    if x.prompt.Many? {
      assert PromptTexts(SetPrompt(x.prompt, texts)) == Merge(texts, x.prompt.texts, |texts|);
    }
  }

  /** Writing non-empty texts of the old arity, then reading, returns them. */
  lemma WriteThenRead(x: Request, kind: RequestType, texts: seq<Text>)
    requires kind.ChatComplete? || kind.Messages? || kind.Complete?
    requires texts != [] && AllTruthy(texts)
    requires GetRequest(x, kind).Ok? && |GetRequest(x, kind).value| == |texts|
    ensures GetRequest(SetRequest(x, kind, texts), kind) == Ok(texts)
  {
    if kind.Complete? {
      PromptReadsMerge(x, texts);
      assert texts == [texts[0]] || x.prompt.Many?;
      if x.prompt.Many? { assert Merge(texts, x.prompt.texts, |texts|) == texts; }
    } else {
      MessageReadsMerge(x, kind, texts);
      assert Merge(texts, GetRequest(x, kind).value, |texts|) == texts;
    }
  }

  /** For messages, exactly when a write is read back: same arity, and each empty entry equal to the old one. */
  lemma MessageWriteReadsBackIff(x: Request, kind: RequestType, texts: seq<Text>)
    requires (kind.ChatComplete? || kind.Messages?) && x.messages != []
    ensures var prior := GetRequest(x, kind).value;
            GetRequest(SetRequest(x, kind, texts), kind) == Ok(texts)
            <==> |texts| == |prior| && forall i | 0 <= i < |texts| :: Truthy(texts[i]) || texts[i] == prior[i]
  {
    var prior := GetRequest(x, kind).value;
    MessageReadsMerge(x, kind, texts);
    var m := Merge(texts, prior, |prior|);
    if |texts| == |prior| {
      assert m == texts <==> forall i | 0 <= i < |texts| :: m[i] == texts[i];
    }
  }

  /** A later write of non-empty texts that covers every part overrides an earlier write. */
  lemma LastWriteWins(x: Request, kind: RequestType, first: seq<Text>, second: seq<Text>)
    requires kind.ChatComplete? || kind.Messages? || kind.Complete?
    requires first != [] && second != [] && AllTruthy(second)
    requires GetRequest(x, kind).Ok? && |GetRequest(x, kind).value| <= |second|
    ensures SetRequest(SetRequest(x, kind, first), kind, second) == SetRequest(x, kind, second)
  {
    if kind.Complete? {
      assert SetPrompt(SetPrompt(x.prompt, first), second) == SetPrompt(x.prompt, second);
    } else {
      var n := |x.messages| - 1;
      var c := x.messages[n].content;
      assert SetContent(SetContent(c, first), second) == SetContent(c, second);
      assert SetRequest(SetRequest(x, kind, first), kind, second).messages == SetRequest(x, kind, second).messages;
    }
  }

  /** Writing back what was read changes nothing. */
  lemma ReadThenWrite(x: Request, kind: RequestType)
    requires GetRequest(x, kind).Ok?
    ensures SetRequest(x, kind, GetRequest(x, kind).value) == x
  {
    var texts := GetRequest(x, kind).value;
    if kind.ChatComplete? || kind.Messages? {
      var n := |x.messages| - 1;
      assert SetContent(x.messages[n].content, texts) == x.messages[n].content;
      assert SetRequest(x, kind, texts).messages == x.messages;
    } else if kind.Complete? {
      assert SetPrompt(x.prompt, texts) == x.prompt;
    }
  }

  /** Only the text of the last message, or the prompt, can change. */
  lemma RestUnchanged(x: Request, kind: RequestType, texts: seq<Text>)
    ensures var y := SetRequest(x, kind, texts);
            && |y.messages| == |x.messages| && y.input == x.input && y.extra == x.extra
            && (forall i | 0 <= i < |x.messages| - 1 :: y.messages[i] == x.messages[i])
            && (forall i | 0 <= i < |x.messages| ::
                  y.messages[i].extra == x.messages[i].extra
                  && SameStructure(y.messages[i].content, x.messages[i].content))
            && (!kind.Complete? ==> y.prompt == x.prompt)
  {
  }

  ghost predicate SameStructure(a: Content, b: Content) {
    if a.Plain? then b.Plain?
    else b.Parts? && |a.parts| == |b.parts| && forall i | 0 <= i < |a.parts| :: a.parts[i].extra == b.parts[i].extra
  }

  /** Writes to an embedding request are dropped: reading gives the old texts. */
  lemma EmbedWritesAreDropped(x: Request, texts: seq<Text>)
    ensures GetRequest(SetRequest(x, Embed, texts), Embed) == GetRequest(x, Embed)
    ensures GetRequest(SetRequest(x, Embed, texts), Embed) == Ok(texts) <==> texts == PromptTexts(x.input)
  {
  }

  // ── Responses ──

  function ItemText(i: Item): Text {
    if i.Block? then Or(i.text, Some("")) else Some("")
  }

  /** Reading a response; None is the absent body of a streamed one. */
  function GetResponse(x: Option<Response>, kind: RequestType): Result<seq<Text>> {
    if x.None? then Ok([]) else
    match kind
    case ChatComplete => if x.value.choices == [] then Threw else Ok([x.value.choices[0].content])
    case Complete => if x.value.choices == [] then Threw else Ok([x.value.choices[0].text])
    case Messages =>
      if exists i | i in x.value.content :: i.Hole? then Threw
      else Ok(seq(|x.value.content|, i requires 0 <= i < |x.value.content| => ItemText(x.value.content[i])))
    case _ => Ok([])
  }

  function ItemAt(items: seq<Item>, i: nat): Item {
    if i < |items| then items[i] else Hole
  }

  function SetResponse(x: Response, kind: RequestType, texts: seq<Text>): Result<Response> {
    match kind
    case ChatComplete =>
      if x.choices != []
      then Ok(x.(choices := x.choices[0 := x.choices[0].(content := Or(At(texts, 0), x.choices[0].content))]))
      else if Truthy(At(texts, 0)) then Ok(x.(choices := [Choice(At(texts, 0), None, map[])]))
        else Threw
    case Complete =>
      var n := |x.choices| - 1;
      if x.choices == [] then Threw
      else Ok(x.(choices := x.choices[n := x.choices[n].(text := Or(At(texts, 0), x.choices[n].text))]))
    case Messages =>
      Ok(x.(content := seq(|texts|, i requires 0 <= i < |texts| =>
           if Truthy(texts[i]) then Bare(texts[i].value) else ItemAt(x.content, i))))
    case _ => Ok(x)
  }

  /** Chat responses keep the laws: a non-empty write is read back, an empty one keeps the old text. */
  lemma ChatResponseLaws(x: Response, texts: seq<Text>, later: seq<Text>)
    requires x.choices != [] && texts != [] && later != []
    ensures SetResponse(x, ChatComplete, texts).Ok?
    ensures var y := SetResponse(x, ChatComplete, texts).value;
            && GetResponse(Some(y), ChatComplete) == Ok([Or(texts[0], x.choices[0].content)])
            && y.choices[1..] == x.choices[1..] && y.content == x.content && y.extra == x.extra
            && (Truthy(later[0]) ==> SetResponse(y, ChatComplete, later) == SetResponse(x, ChatComplete, later))
  {
    var y := SetResponse(x, ChatComplete, texts).value;
    if Truthy(later[0]) {
      assert SetResponse(y, ChatComplete, later).value.choices == SetResponse(x, ChatComplete, later).value.choices;
    }
  }

  /** A completion is read from the first choice and written to the last: the law needs them to be one. */
  lemma CompletionReadsBackIff(x: Response, t: Text)
    requires x.choices != [] && Truthy(t)
    ensures SetResponse(x, Complete, [t]).Ok?
    ensures GetResponse(Some(SetResponse(x, Complete, [t]).value), Complete) == Ok([t])
       <==> |x.choices| == 1 || x.choices[0].text == t
  {
  }

  /** A rewritten block of a messages response is read back as the empty text. */
  lemma RewrittenBlocksReadEmpty(x: Response, texts: seq<Text>)
    requires |texts| == |x.content| && forall i | i in x.content :: i.Block?
    ensures var y := SetResponse(x, Messages, texts).value;
            GetResponse(Some(y), Messages)
            == Ok(seq(|texts|, i requires 0 <= i < |texts| =>
                    if Truthy(texts[i]) then Some("") else ItemText(x.content[i])))
    ensures GetResponse(Some(SetResponse(x, Messages, texts).value), Messages) == Ok(texts)
       <==> forall i | 0 <= i < |texts| :: texts[i] == Some("") && ItemText(x.content[i]) == Some("")
  {
    var y := SetResponse(x, Messages, texts).value;
    forall i | i in y.content ensures !i.Hole? {
      var k :| 0 <= k < |y.content| && y.content[k] == i;
      assert x.content[k] in x.content;
    }
    var read := seq(|texts|, i requires 0 <= i < |texts| =>
      if Truthy(texts[i]) then Some("") else ItemText(x.content[i]));
    assert GetResponse(Some(y), Messages).value == read;
    assert read == texts <==> forall i | 0 <= i < |texts| :: read[i] == texts[i];
  }

  // ── Reads and writes spelled out ──

  predicate Blank(t: Text) {
    t == None || t == Some("")
  }

  /** The texts of a message: its own, or one for each part, "" for a missing one. */
  ghost predicate AreTextsOf(texts: seq<Text>, content: Content) {
    if content.Plain? then texts == [content.text]
    else
      |texts| == |content.parts|
      && forall i | 0 <= i < |texts| ::
           texts[i] == if Blank(content.parts[i].text) then Some("") else content.parts[i].text
  }

  /** A message reads its texts, and reading fails without a message; a prompt reads what it holds. */
  lemma RequestReads(x: Request, kind: RequestType)
    ensures (kind == ChatComplete || kind == Messages) && x.messages == [] ==> GetRequest(x, kind) == Threw
    ensures (kind == ChatComplete || kind == Messages) && x.messages != [] ==>
              GetRequest(x, kind).Ok? && AreTextsOf(GetRequest(x, kind).value, x.messages[|x.messages| - 1].content)
    ensures kind == Complete ==> GetRequest(x, kind) == Ok(if x.prompt.One? then [x.prompt.text] else x.prompt.texts)
    ensures kind == Embed ==> GetRequest(x, kind) == Ok(if x.input.One? then [x.input.text] else x.input.texts)
    ensures kind == OtherType ==> GetRequest(x, kind) == Ok([])
  {
  }

  /** The text a write leaves at a place: the new one unless it is missing, null or empty. */
  predicate Takes(after: Text, texts: seq<Text>, i: nat, before: Text) {
    after == if i < |texts| && !Blank(texts[i]) then texts[i] else before
  }

  ghost predicate ContentTakes(after: Content, texts: seq<Text>, before: Content) {
    match before
    case Plain(text) => after.Plain? && Takes(after.text, texts, 0, text)
    case Parts(ps) =>
      after.Parts? && |after.parts| == |ps|
      && forall i | 0 <= i < |ps| ::
        Takes(after.parts[i].text, texts, i, ps[i].text) && after.parts[i].extra == ps[i].extra
  }

  /** A write goes to the last message alone, part by part, or to the prompt alone, or nowhere. */
  lemma RequestWrites(x: Request, kind: RequestType, texts: seq<Text>)
    ensures var y, n := SetRequest(x, kind, texts), |x.messages|;
            && y.input == x.input && y.extra == x.extra
            && (kind == ChatComplete || kind == Messages ==>
                  && y.prompt == x.prompt && |y.messages| == n
                  && (forall i | 0 <= i < n - 1 :: y.messages[i] == x.messages[i])
                  && (n > 0 ==>
                        && y.messages[n - 1].extra == x.messages[n - 1].extra
                        && ContentTakes(y.messages[n - 1].content, texts, x.messages[n - 1].content)))
            && (kind == Complete ==> y.messages == x.messages && PromptTakes(y.prompt, texts, x.prompt))
            && (kind == Embed || kind == OtherType ==> y == x)
  {
  }

  /** A string prompt becomes the first text as it is; a list takes the length of the write. */
  ghost predicate PromptTakes(after: Prompt, texts: seq<Text>, before: Prompt) {
    match before
    case One(_) => after == One(if |texts| > 0 then texts[0] else None)
    case Many(ts) =>
      after.Many? && |after.texts| == |texts|
      && forall i | 0 <= i < |texts| :: Takes(after.texts[i], texts, i, if i < |ts| then ts[i] else None)
  }

  /** Chat and completion responses read their first choice, messages responses a text for each block. */
  lemma ResponseReads(x: Option<Response>, kind: RequestType)
    ensures x == None ==> GetResponse(x, kind) == Ok([])
    ensures x.Some? && (kind == ChatComplete || kind == Complete) ==>
              GetResponse(x, kind)
              == if x.value.choices == [] then Threw
              else Ok([if kind == ChatComplete then x.value.choices[0].content else x.value.choices[0].text])
    ensures x.Some? && kind == Messages ==>
              if exists i | 0 <= i < |x.value.content| :: x.value.content[i] == Hole then GetResponse(x, kind) == Threw
              else
                GetResponse(x, kind).Ok? && |GetResponse(x, kind).value| == |x.value.content|
                && forall i | 0 <= i < |x.value.content| ::
                  GetResponse(x, kind).value[i]
                  == if x.value.content[i].Block? && !Blank(x.value.content[i].text) then x.value.content[i].text
                  else Some("")
  {
    if x.Some? && kind == Messages {
      if i :| 0 <= i < |x.value.content| && x.value.content[i] == Hole { assert x.value.content[i] in x.value.content; }
    }
  }

  /** A write goes to the first choice of a chat, the last of a completion, or the blocks of a messages response. */
  lemma ResponseWrites(x: Response, kind: RequestType, texts: seq<Text>)
    ensures var r, n := SetResponse(x, kind, texts), |x.choices|;
            && (r.Threw? <==> n == 0 && (kind == Complete
                                         || (kind == ChatComplete && (|texts| == 0 || Blank(texts[0])))))
            && (r.Ok? ==>
                  && r.value.extra == x.extra
                  && (kind != Messages ==> r.value.content == x.content)
                  && (kind == Messages ==>
                        && r.value.choices == x.choices && |r.value.content| == |texts|
                        && forall i | 0 <= i < |texts| ::
                             if !Blank(texts[i]) then r.value.content[i] == Bare(texts[i].value)
                             else r.value.content[i] == if i < |x.content| then x.content[i] else Hole)
                  && (kind == Embed || kind == OtherType ==> r.value == x)
                  && ((kind == ChatComplete || kind == Complete) && n > 0 ==>
                        var k := if kind == ChatComplete then 0 else n - 1;
                        && |r.value.choices| == n && r.value.choices[k].extra == x.choices[k].extra
                        && (forall i | 0 <= i < n && i != k :: r.value.choices[i] == x.choices[i])
                        && (kind == ChatComplete ==>
                              && r.value.choices[k].text == x.choices[k].text
                              && Takes(r.value.choices[k].content, texts, 0, x.choices[k].content))
                        && (kind == Complete ==>
                              && r.value.choices[k].content == x.choices[k].content
                              && Takes(r.value.choices[k].text, texts, 0, x.choices[k].text))))
  {
  }

  // ── The object model: which of the caller's objects a write touches ──

  class MessageObject {
    var content: Content
    const extra: Extra

    constructor (content: Content, extra: Extra)
      ensures this.content == content && this.extra == extra
    {
      this.content, this.extra := content, extra;
    }
  }

  class RequestObject {
    var messages: seq<MessageObject>
    var prompt: Prompt
    const input: Prompt
    const extra: Extra

    constructor (messages: seq<MessageObject>, prompt: Prompt, input: Prompt, extra: Extra)
      ensures this.messages == messages && this.prompt == prompt && this.input == input && this.extra == extra
    {
      this.messages, this.prompt, this.input, this.extra := messages, prompt, input, extra;
    }

    ghost function View(): Request
      reads this, messages
    {
      Request(seq(|messages|, i requires 0 <= i < |messages| reads this, messages =>
                Message(messages[i].content, messages[i].extra)), prompt, input, extra)
    }
  }

  class ChoiceObject {
    var content: Text
    var text: Text
    const extra: Extra

    constructor (content: Text, text: Text, extra: Extra)
      ensures this.content == content && this.text == text && this.extra == extra
    {
      this.content, this.text, this.extra := content, text, extra;
    }
  }

  class ResponseObject {
    var choices: seq<ChoiceObject>
    var content: seq<Item>
    const extra: Extra

    constructor (choices: seq<ChoiceObject>, content: seq<Item>, extra: Extra)
      ensures this.choices == choices && this.content == content && this.extra == extra
    {
      this.choices, this.content, this.extra := choices, content, extra;
    }

    /** Parsed JSON is a tree: no choice object occurs twice. */
    ghost predicate Tree()
      reads this
    {
      forall i, j | 0 <= i < j < |choices| :: choices[i] != choices[j]
    }

    ghost function View(): Response
      reads this, choices
    {
      Response(seq(|choices|, i requires 0 <= i < |choices| reads this, choices =>
                 Choice(choices[i].content, choices[i].text, choices[i].extra)), content, extra)
    }
  }

  /** `transformedData`: where a write leaves the updated copy. */
  class Transformed {
    var request: RequestObject?
    var response: ResponseObject?

    constructor ()
      ensures request == null && response == null
    {
      request, response := null, null;
    }
  }

  /** Writes a request: a new object, a new message list, a new last message; the original JSON is not modified. */
  method SetRequestContentPart(json: RequestObject, kind: RequestType, texts: seq<Text>, transformed: Transformed)
    requires texts != []
    modifies transformed`request
    ensures transformed.request != null && fresh(transformed.request)
    ensures transformed.request.View() == SetRequest(old(json.View()), kind, texts)
    ensures json.View() == old(json.View())
  {
    var messages, prompt := json.messages, json.prompt;
    if kind.ChatComplete? || kind.Messages? {
      var n := |messages| - 1;
      if n >= 0 {
        var last := new MessageObject(SetContent(messages[n].content, texts), messages[n].extra);
        messages := messages[n := last];
      }
    } else if kind.Complete? {
      prompt := SetPrompt(prompt, texts);
    }
    var updated := new RequestObject(messages, prompt, json.input, json.extra);
    transformed.request := updated;
    assert updated.View() == SetRequest(json.View(), kind, texts);
  }

  /**
   Writes a response.  Only a completion touches the caller's JSON: its copy shares the
   choice objects, so the text assigned to the last choice shows in the original too.
   */
  method SetResponseContentPart(json: ResponseObject, kind: RequestType, texts: seq<Text>, transformed: Transformed)
    returns (threw: bool)
    requires texts != [] && json.Tree()
    modifies transformed`response, if kind.Complete? && json.choices != [] then {json.choices[|json.choices| - 1]}
             else {}
    ensures threw <==> SetResponse(old(json.View()), kind, texts).Threw?
    ensures threw ==> transformed.response == old(transformed.response) && json.View() == old(json.View())
    ensures !threw ==> transformed.response != null && fresh(transformed.response)
    ensures !threw ==> transformed.response.View() == SetResponse(old(json.View()), kind, texts).value
    ensures !threw ==> json.View() == if kind.Complete? then transformed.response.View() else old(json.View())
  {
    var choices, content := json.choices, json.content;
    match kind {
      case ChatComplete =>
        if |choices| == 0 {
          if !Truthy(At(texts, 0)) { return true; }
          var only := new ChoiceObject(At(texts, 0), None, map[]);
          choices := [only];
        } else {
          var first := new ChoiceObject(Or(At(texts, 0), choices[0].content), choices[0].text, choices[0].extra);
          choices := choices[0 := first];
        }
      case Complete =>
        if |choices| == 0 { return true; }
        var last := choices[|choices| - 1];
        last.text := Or(At(texts, 0), last.text);
      case Messages =>
        var blocks := content;
        content := seq(|texts|, i requires 0 <= i < |texts| =>
          if Truthy(texts[i]) then Bare(texts[i].value) else ItemAt(blocks, i));
      case _ =>
    }
    var updated := new ResponseObject(choices, content, json.extra);
    transformed.response := updated;
    threw := false;
    assert updated.View() == SetResponse(old(json.View()), kind, texts).value;
  }

  /** `setCurrentContentPart`: with no texts at all nothing is written. */
  method SetCurrentRequestPart(json: RequestObject, kind: RequestType, texts: Option<seq<Text>>,
                               transformed: Transformed)
    modifies transformed`request
    ensures texts.None? || texts.value == [] ==> transformed.request == old(transformed.request)
    ensures texts.Some? && texts.value != [] ==>
              transformed.request != null && fresh(transformed.request)
              && transformed.request.View() == SetRequest(old(json.View()), kind, texts.value)
    ensures json.View() == old(json.View())
  {
    if texts.None? || |texts.value| == 0 { return; }
    SetRequestContentPart(json, kind, texts.value, transformed);
  }
}
