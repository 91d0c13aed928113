/**
 * The request builder of services/geminiService.ts: it turns a prompt, the conversation so far,
 * the user's name and an optional data-URL image into a model request, and turns the model's
 * answer (or its failure) into the reply text. The SDK call itself is a parameter.
 */
module GeminiService {
  import opened Types
  import JsText

  const ModelName := "gemini-3-flash-preview"
  const DefaultFirstName := "User"
  const NoTextReply := "I apologize, but I am unable to process your query at this time."
  const InstructionHead := "You are TAVISH AI, a world-class premium digital assistant. You were created and developed by Tavish Hussain. If anyone asks who created you, who developed you, or who is behind this project, you must clearly state that you were created by Tavish Hussain. You are refined, intelligent, and highly cultured. Always address the user as "
  const InstructionTail := ". Provide professional, accurate, and sophisticated responses."
  const DisruptionHead := "I apologize, "
  const DisruptionTail := ", but I encountered a disruption in my processing layers. Please try rephrasing your request."

  /** The role tag of a turn: `'user'` or `'model'`. */
  datatype ApiRole = UserTurn | ModelTurn
  /** An inline image: its MIME type and its base64 text. */
  datatype Blob = Blob(mimeType: string, data: string)
  datatype Part = TextPart(text: string) | InlineData(blob: Blob)
  datatype Content = Content(role: ApiRole, parts: seq<Part>)
  datatype Request = Request(model: string, contents: seq<Content>, systemInstruction: string)
  /** What the SDK call gives back: the response text (a missing text is "", both being falsy) or a thrown error. */
  datatype CallOutcome = Ok(text: string) | Err

  predicate OccursAt(t: string, s: string, k: int) {
    0 <= k <= |s| - |t| && s[k..k + |t|] == t
  }

  /** `t` is a substring of `s`. */
  predicate Occurs(t: string, s: string) {
    exists k | 0 <= k <= |s| :: OccursAt(t, s, k)
  }

  /** `s.split(' ')[0]`: everything before the first space. */
  function FirstField(s: string): (r: string)
    ensures r <= s
    ensures ' ' !in r
    ensures |r| < |s| ==> s[|r|] == ' '
  {
    if s == [] || s[0] == ' ' then [] else [s[0]] + FirstField(s[1..])
  }

  /** `userName.split(' ')[0] || 'User'` (services/geminiService.ts:13). */
  function FirstName(userName: string): (r: string)
    ensures r != [] && ' ' !in r
    ensures userName == [] || userName[0] == ' ' ==> r == DefaultFirstName
    ensures userName != [] && userName[0] != ' ' ==>
              r <= userName && (|r| == |userName| || userName[|r|] == ' ')
  {
    var f := FirstField(userName);
    if f == [] then DefaultFirstName else f
  }

  /** The system instruction: a fixed persona that addresses the user by first name. */
  function SystemInstruction(firstName: string): (r: string)
    ensures Occurs(firstName, r)
  {
    var r := InstructionHead + firstName + InstructionTail;
    assert OccursAt(firstName, r, |InstructionHead|);
    r
  }

  /** The apology returned when the call fails; it names the user. */
  function DisruptionReply(firstName: string): (r: string)
    ensures Occurs(firstName, r)
  {
    var r := DisruptionHead + firstName + DisruptionTail;
    assert OccursAt(firstName, r, |DisruptionHead|);
    r
  }

  /** One history message as one turn. */
  function ToContent(m: Message): Content {
    Content(if m.role == UserRole then UserTurn else ModelTurn, [TextPart(m.text)])
  }

  /** `history.map(...)` (services/geminiService.ts:16-19): one turn per message, in order, text only. */
  function HistoryToContents(history: seq<Message>): (r: seq<Content>)
    ensures |r| == |history|
    ensures forall i :: 0 <= i < |history| ==>
              r[i].role == (if history[i].role == UserRole then UserTurn else ModelTurn) &&
              r[i].parts == [TextPart(history[i].text)]
  {
    if history == [] then [] else [ToContent(history[0])] + HistoryToContents(history[1..])
  }

  /** The first position of `c` in `s`. */
  function IndexOf(s: string, c: char): (r: Option<nat>)
    ensures r.Some? ==> r.value < |s| && s[r.value] == c && c !in s[..r.value]
    ensures r.None? <==> c !in s
  {
    if s == [] then None
    else if s[0] == c then Some(0)
    else
      match IndexOf(s[1..], c)
      case None => None
      case Some(k) =>
        assert s[..k + 1] == [s[0]] + s[1..][..k];
        Some(k + 1)
  }

  /** The characters JavaScript's `.` refuses to match. */
  predicate IsLineTerminator(c: char) {
    c == '\n' || c == '\r' || c == '\U{2028}' || c == '\U{2029}'
  }

  predicate NoLineTerminator(s: string) {
    forall i :: 0 <= i < |s| ==> !IsLineTerminator(s[i])
  }

  /** The images `/^data:([^;]+);base64,(.+)$/` can describe. */
  predicate WellFormed(b: Blob) {
    b.mimeType != [] && ';' !in b.mimeType && b.data != [] && NoLineTerminator(b.data)
  }

  function DataUrl(b: Blob): string {
    DataPrefix + b.mimeType + Base64Marker + b.data
  }

  const DataPrefix := "data:"
  const Base64Marker := ";base64,"

  /** After `;base64,`: the payload group `(.+)$`, which must be non-empty and on one line. */
  function ParsePayload(mime: string, rest: string): (r: Option<Blob>)
    ensures r.Some? ==> r.value.mimeType == mime && rest == Base64Marker + r.value.data &&
                        r.value.data != [] && NoLineTerminator(r.value.data)
  {
    if |rest| < |Base64Marker| || rest[..|Base64Marker|] != Base64Marker then None
    else
      var data := rest[|Base64Marker|..];
      if data == [] || !NoLineTerminator(data) then None
      else
        assert rest == rest[..|Base64Marker|] + data;
        Some(Blob(mime, data))
  }

  /** After `data:`: the MIME group `([^;]+)` ends at the first `;`, and must be non-empty. */
  function ParseAfterPrefix(t: string): (r: Option<Blob>)
    ensures r.Some? ==> WellFormed(r.value) && t == r.value.mimeType + Base64Marker + r.value.data
  {
    match IndexOf(t, ';')
    case None => None
    case Some(k) =>
      if k == 0 then None
      else
        var r := ParsePayload(t[..k], t[k..]);
        assert t == t[..k] + t[k..];
        if r.Some? then
          Assoc(t[..k], Base64Marker, r.value.data);
          r
        else r
  }

  /**
   * `image.match(/^data:([^;]+);base64,(.+)$/)` (services/geminiService.ts:24-25). The MIME group
   * cannot hold a `;`, so it ends at the first `;` after `data:`; the rest after `;base64,` must be
   * non-empty and free of line terminators.
   */
  function ParseDataUrl(s: string): (r: Option<Blob>)
    ensures r.Some? ==> WellFormed(r.value) && DataUrl(r.value) == s
  {
    if |s| < |DataPrefix| || s[..|DataPrefix|] != DataPrefix then None
    else
      var t := s[|DataPrefix|..];
      var r := ParseAfterPrefix(t);
      assert s == s[..|DataPrefix|] + t;
      if r.Some? then
        Assoc(r.value.mimeType, Base64Marker, r.value.data);
        Assoc(DataPrefix, r.value.mimeType + Base64Marker, r.value.data);
        Assoc(DataPrefix, r.value.mimeType, Base64Marker);
        r
      else r
  }

  lemma Assoc(x: string, y: string, z: string)
    ensures x + (y + z) == x + y + z
  {
  }

  lemma Split(x: string, y: string)
    ensures (x + y)[..|x|] == x && (x + y)[|x|..] == y
  {
  }

  /** `IndexOf` finds the first occurrence and no other. */
  lemma IndexOfFirst(s: string, c: char, m: nat)
    requires m < |s| && s[m] == c && c !in s[..m]
    ensures IndexOf(s, c) == Some(m)
  {
    assert s[..m + 1][m] == c;
  }

  /** Parsing recovers the MIME type and payload of every data URL the pattern describes. */
  lemma ParseDataUrlRoundTrip(b: Blob)
    requires WellFormed(b)
    ensures ParseDataUrl(DataUrl(b)) == Some(b)
  {
    var rest := Base64Marker + b.data;
    var t := b.mimeType + rest;
    Assoc(b.mimeType, Base64Marker, b.data);
    Assoc(DataPrefix, b.mimeType + Base64Marker, b.data);
    Assoc(DataPrefix, b.mimeType, Base64Marker);
    Assoc(DataPrefix, b.mimeType, rest);
    assert DataUrl(b) == DataPrefix + t;
    Split(DataPrefix, t);
    Split(b.mimeType, rest);
    Split(Base64Marker, b.data);
    IndexOfFirst(t, ';', |b.mimeType|);
    assert ParsePayload(b.mimeType, rest) == Some(b);
    assert ParseAfterPrefix(t) == Some(b);
  }

  /** A string is refused exactly when no well-formed image has it as its data URL. */
  lemma ParseDataUrlExact(s: string)
    ensures ParseDataUrl(s).None? <==> forall b :: WellFormed(b) ==> DataUrl(b) != s
  {
    forall b | WellFormed(b)
      ensures ParseDataUrl(DataUrl(b)) == Some(b)
    {
      ParseDataUrlRoundTrip(b);
    }
  }

  /**
   * The parts of the prompt turn (services/geminiService.ts:21-33): the prompt, then the image
   * when it parses; an image that does not parse is dropped without a word.
   */
  function PromptParts(prompt: string, image: Option<string>): (parts: seq<Part>)
    ensures 1 <= |parts| <= 2 && parts[0] == TextPart(prompt)
    ensures |parts| == 2 <==> image.Some? && ParseDataUrl(image.value).Some?
    ensures |parts| == 2 ==> parts[1] == InlineData(ParseDataUrl(image.value).value)
  {
    if image.Some? && ParseDataUrl(image.value).Some? then
      [TextPart(prompt), InlineData(ParseDataUrl(image.value).value)]
    else [TextPart(prompt)]
  }

  /** The request's contents: the history turns, then one user turn for the prompt. */
  function RequestContents(prompt: string, history: seq<Message>, image: Option<string>): (r: seq<Content>)
    ensures |r| == |history| + 1
    ensures r[..|history|] == HistoryToContents(history)
    ensures r[|history|] == Content(UserTurn, PromptParts(prompt, image))
  {
    HistoryToContents(history) + [Content(UserTurn, PromptParts(prompt, image))]
  }

  /**
   * The chat store passes a history that already ends with the message being sent, so the
   * request carries the prompt twice: as the last history turn (text only) and as the prompt turn.
   */
  lemma PromptSentTwice(prompt: string, history: seq<Message>, image: Option<string>)
    requires history != [] && history[|history| - 1].role == UserRole && history[|history| - 1].text == prompt
    ensures var c := RequestContents(prompt, history, image);
            |c| >= 2 && c[|c| - 2] == Content(UserTurn, [TextPart(prompt)]) &&
            c[|c| - 1].role == UserTurn && c[|c| - 1].parts[0] == TextPart(prompt)
  {
    var c := RequestContents(prompt, history, image);
    assert c[|c| - 2] == c[..|history|][|history| - 1];
  }

  /** Builds the contents as the source does, by pushing onto local arrays (services/geminiService.ts:16-35). */
  method BuildContents(prompt: string, history: seq<Message>, image: Option<string>) returns (contents: seq<Content>)
    ensures contents == RequestContents(prompt, history, image)
  {
    contents := HistoryToContents(history);
    var currentParts := [TextPart(prompt)];
    if image == Some("") {
      assert ParseDataUrl(image.value).None?;
    }
    if JsText.Truthy(image) {
      var matches := ParseDataUrl(image.value);
      if matches.Some? {
        currentParts := currentParts + [InlineData(matches.value)];
      }
    }
    assert currentParts == PromptParts(prompt, image);
    contents := contents + [Content(UserTurn, currentParts)];
  }

  /**
   * The reply (services/geminiService.ts:46,49): the response text when it is non-empty, a fixed
   * apology when it is empty, the disruption apology naming the user when the call fails.
   */
  function SelectReply(outcome: CallOutcome, firstName: string): (r: string)
    ensures r != []
    ensures outcome.Ok? && outcome.text != [] ==> r == outcome.text
    ensures outcome.Ok? && outcome.text == [] ==> r == NoTextReply
    ensures outcome.Err? ==> r == DisruptionReply(firstName) && Occurs(firstName, r)
  {
    match outcome
    case Ok(text) => if text != [] then text else NoTextReply
    case Err => DisruptionReply(firstName)
  }

  /** `getAIResponse`, with the SDK's `generateContent` given as `generate`. */
  method GetAIResponse(prompt: string, history: seq<Message>, userName: string, image: Option<string>,
                       generate: Request -> CallOutcome)
    returns (request: Request, reply: string)
    ensures request == Request(ModelName, RequestContents(prompt, history, image), SystemInstruction(FirstName(userName)))
    ensures Occurs(FirstName(userName), request.systemInstruction)
    ensures reply == SelectReply(generate(request), FirstName(userName))
  {
    var firstName := FirstName(userName);
    var contents := BuildContents(prompt, history, image);
    request := Request(ModelName, contents, SystemInstruction(firstName));
    var outcome := generate(request);
    match outcome
    case Ok(text) =>
      reply := if text != [] then text else NoTextReply;
    case Err =>
      reply := DisruptionReply(firstName);
  }
}
