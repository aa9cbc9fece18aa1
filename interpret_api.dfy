// The dream-interpretation API routes: pages/api/interpret-combined.ts,
// interpret-openai.ts, interpret-aiml.ts, interpret-deepseek.ts and interpret.ts.
// Each handler is an early-return guard chain ending in one or two provider
// calls and an optional database insert. A handler is modelled as a function
// from the request and the providers' outcomes to the response it writes and
// the row it saves; the providers, the database and the clock are inputs.

module InterpretApi {
  import opened Text
  import opened Sanitizer

  /** The JSON body a handler writes; `NoContent` for `res.status(..).end()`. */
  datatype Payload =
    | NoContent
    | Interpretation(interpretation: string)
    | Error(error: string)
    | ErrorDetails(error: string, details: string)

  datatype Response = Response(status: int, payload: Payload)

  /** The `dream` property of a request body: a string, some other truthy JSON
      value (a number other than 0, `true`, an object or an array), or `Falsy` for
      everything else that is not a string (missing, `null`, `false`, `0`). */
  datatype Field = Falsy | Str(value: string) | Truthy

  /** The request body; `NoBody` when `req.body` is missing. */
  datatype Body = NoBody | Body(dream: Field)

  /** A chat-completions reply as far as the handlers look into it. A `None`
      content stands for a content that is not a string. */
  datatype Message = Message(content: Option<string>)
  datatype Choice = Choice(message: Option<Message>)
  datatype ChatData = ChatData(choices: Option<seq<Choice>>)
  /** The outcome of the HTTP call to a provider: it threw, or it returned a body. */
  datatype ChatCall = CallFailed | Replied(data: Option<ChatData>)

  /** What decides whether a result is written to the `dreams` table: the
      Authorization header, whether the database client is configured, the user
      id the session token resolves to (`None` when the lookup finds nobody or
      throws) and whether the insert succeeds. */
  datatype SaveEnv = SaveEnv(authorization: Option<string>, databaseConfigured: bool,
                             userFor: string -> Option<string>, insertSucceeds: bool)

  /** A row of the `dreams` table. */
  datatype DreamRow = DreamRow(userId: string, dreamText: string, interpretation: string, aiModel: string)

  /** What a handler does: the response it writes and the row it saves, if any. */
  datatype Outcome = Outcome(response: Response, saved: Option<DreamRow>)

  const MethodNotAllowed := "Method not allowed"
  const ServiceUnavailable := "Rüya yorumlama servisi şu anda kullanılamıyor"
  const ServiceBusy := "Rüya yorumlama servisi şu anda meşgul. Lütfen birkaç dakika sonra tekrar deneyin."
  const BodyRequired := "Request body is required"
  const DreamRequired := "Dream text is required"
  const DreamTooLong := "Dream text is too long (max 1000 characters)"
  const InternalError := "An error occurred while processing your request"
  const MaxDreamLength := 1000

  // ---------------------------------------------------------------------------
  // The guard chain shared by the four sanitising endpoints

  /** The first two guards: a preflight request is answered with an empty 200,
      any method other than POST with 405. */
  function MethodGate(verb: string): (r: Option<Response>)
    ensures r.None? <==> verb == "POST"
    ensures verb == "OPTIONS" ==> r == Some(Response(200, NoContent))
    ensures verb != "OPTIONS" && verb != "POST" ==> r == Some(Response(405, Error(MethodNotAllowed)))
  {
    if verb == "OPTIONS" then Some(Response(200, NoContent))
    else if verb != "POST" then Some(Response(405, Error(MethodNotAllowed)))
    else None
  }

  /** The body guards: the body must be present, `dream` a non-empty string of at
      most 1000 characters; a string of exactly 1000 characters passes. With
      `logsDream` the handler logs `dream.substring(0, 50)` before the type test,
      which throws for a truthy non-string and ends in the outer 500. */
  function CheckDream(body: Body, logsDream: bool): (r: Result<string, Response>)
    ensures r.Ok? <==> body.Body? && body.dream.Str? && body.dream.value != [] && |body.dream.value| <= MaxDreamLength
    ensures r.Ok? ==> r.value == body.dream.value
    ensures r.Err? ==> r.error.status == 400 || r.error == Response(500, Error(InternalError))
    ensures r.Err? && r.error.status == 500 <==> logsDream && body.Body? && body.dream.Truthy?
    ensures body.NoBody? ==> r == Err(Response(400, Error(BodyRequired)))
    ensures body.Body? && body.dream.Str? && |body.dream.value| > MaxDreamLength ==> r == Err(Response(400, Error(DreamTooLong)))
  {
    match body
    case NoBody => Err(Response(400, Error(BodyRequired)))
    case Body(Str(d)) =>
      if d == [] then Err(Response(400, Error(DreamRequired)))
      else if |d| > MaxDreamLength then Err(Response(400, Error(DreamTooLong)))
      else Ok(d)
    case Body(Truthy) =>
      if logsDream then Err(Response(500, Error(InternalError))) else Err(Response(400, Error(DreamRequired)))
    case Body(Falsy) => Err(Response(400, Error(DreamRequired)))
  }

  /** The shape test `data && data.choices && data.choices.length > 0 &&
      data.choices[0].message`. */
  predicate WellShaped(c: ChatCall)
  {
    c.Replied? && c.data.Some? && c.data.value.choices.Some?
    && |c.data.value.choices.value| > 0 && c.data.value.choices.value[0].message.Some?
  }

  /** The provider text an endpoint that tests the shape goes on with: present
      exactly when the reply is well shaped and its first message's content is a
      string (sanitising a non-string throws). */
  function ReplyText(c: ChatCall): (r: Option<string>)
    ensures r.Some? ==> WellShaped(c)
    ensures !WellShaped(c) ==> r.None?
  {
    if WellShaped(c) then c.data.value.choices.value[0].message.value.content else None
  }

  /** `response.data.choices[0].message.content` read without any shape test: each
      missing link throws, which is `None` here. */
  function RawReplyText(c: ChatCall): Option<string>
  {
    match c
    case CallFailed => None
    case Replied(None) => None
    case Replied(Some(ChatData(None))) => None
    case Replied(Some(ChatData(Some(choices)))) =>
      if choices == [] then None
      else match choices[0].message
        case None => None
        case Some(m) => m.content
  }

  /** Reading the reply without the shape test reaches the same text, and fails on
      the same replies, as reading it with the test. */
  lemma RawReplyTextAgrees(c: ChatCall)
    ensures RawReplyText(c) == ReplyText(c)
  {
  }

  /** `req.headers.authorization?.replace('Bearer ', '')`, with "" for a missing header. */
  function SessionToken(authorization: Option<string>): string
  {
    match authorization
    case None => ""
    case Some(h) => ReplaceFirst(h, "Bearer ", "")
  }

  /** The optional insert: it happens only with a non-empty token, a configured
      database, a user for the token and an insert that succeeds. */
  function SavedRow(env: SaveEnv, dream: string, text: string, model: string): (r: Option<DreamRow>)
    ensures r.Some? <==> SessionToken(env.authorization) != "" && env.databaseConfigured
                         && env.userFor(SessionToken(env.authorization)).Some? && env.insertSucceeds
    ensures r.Some? ==> r.value == DreamRow(env.userFor(SessionToken(env.authorization)).value, Trim(dream), text, model)
  {
    var token := SessionToken(env.authorization);
    if token != "" && env.databaseConfigured && env.insertSucceeds then
      match env.userFor(token)
      case None => None
      case Some(uid) => Some(DreamRow(uid, Trim(dream), text, model))
    else None
  }

  /** How an endpoint's outcome relates to the insert: a successful POST saves
      the returned text exactly when `SavedRow` does, nothing else saves. */
  predicate SavesResult(verb: string, body: Body, env: SaveEnv, model: string, r: Outcome)
  {
    if verb == "POST" && r.response.payload.Interpretation? && body.Body? && body.dream.Str? then
      r.saved == SavedRow(env, body.dream.value, r.response.payload.interpretation, model)
    else
      r.saved.None?
  }

  /** The common end of the AIML, OpenAI and DeepSeek endpoints: 503 without usable
      text, otherwise the sanitised text, returned and saved alike. */
  function Deliver(text: Option<string>, v: Variant, dream: string, model: string, env: SaveEnv): (r: Outcome)
    ensures text.None? ==> r == Outcome(Response(503, Error(ServiceBusy)), None)
    ensures text.Some? ==> r.response == Response(200, Interpretation(Sanitize(v, text.value)))
    ensures r.saved.Some? ==> r.response.status == 200 && r.saved.value.interpretation == r.response.payload.interpretation
                              && r.saved.value.aiModel == model && r.saved.value.dreamText == Trim(dream)
  {
    match text
    case None => Outcome(Response(503, Error(ServiceBusy)), None)
    case Some(t) =>
      var s := Sanitize(v, t);
      Outcome(Response(200, Interpretation(s)), SavedRow(env, dream, s, model))
  }

  /** Text with no line break and no '#': what the two parts of the combined
      text are made of, so the Gemini heading cannot occur inside the first. */
  predicate Plain(s: string)
  {
    forall i :: 0 <= i < |s| ==> s[i] != '\n' && s[i] != '#'
  }

  /** The plain sanitiser's output never holds a line break or a '#'. */
  lemma CleanBasicIsPlain(s: string)
    requires Clean(Basic, s)
    ensures Plain(s)
  {
    forall i | 0 <= i < |s| ensures s[i] != '\n' && s[i] != '#' {
      assert OutputChar(Basic, s[i]);
    }
  }

  // ---------------------------------------------------------------------------
  // pages/api/interpret-combined.ts

  const DeepSeekHeading := "## DeepSeek Yorumu:\n\n"
  const GeminiHeading := "\n\n## Gemini Yorumu:\n\n"
  const Apology := "yanıt alınamadı. " + "Lütfen daha sonra " + "tekrar deneyin."
  const DeepSeekFallback := "DeepSeek API'den " + Apology
  const GeminiFallback := "Gemini API'den " + Apology

  lemma PlainAppend(a: string, b: string)
    requires Plain(a) && Plain(b)
    ensures Plain(a + b)
  {
    forall i | 0 <= i < |a + b| ensures (a + b)[i] != '\n' && (a + b)[i] != '#' {
      if i >= |a| {
        assert (a + b)[i] == b[i - |a|];
      }
    }
  }

  lemma FallbacksArePlain()
    ensures Plain(DeepSeekFallback) && Plain(GeminiFallback)
  {
    assert Plain("yanıt alınamadı. ") && Plain("Lütfen daha sonra ") && Plain("tekrar deneyin.");
    PlainAppend("yanıt alınamadı. ", "Lütfen daha sonra ");
    PlainAppend("yanıt alınamadı. " + "Lütfen daha sonra ", "tekrar deneyin.");
    assert Plain("DeepSeek API'den ") && Plain("Gemini API'den ");
    PlainAppend("DeepSeek API'den ", Apology);
    PlainAppend("Gemini API'den ", Apology);
  }

  /** The DeepSeek half: the sanitised reply, or the fixed apology when the call
      fails, the reply is malformed or its content is not a string. */
  function DeepSeekPart(c: ChatCall): (r: string)
    ensures Plain(r)
    ensures ReplyText(c).Some? ==> r == Sanitize(Basic, ReplyText(c).value)
    ensures ReplyText(c).Some? ==> Clean(Basic, r) && Visible(r) == Survivors(Basic, ReplyText(c).value)
    ensures ReplyText(c).None? ==> r == DeepSeekFallback
  {
    FallbacksArePlain();
    match ReplyText(c)
    case None => DeepSeekFallback
    case Some(t) =>
      SanitizeKeepsText(Basic, t);
      CleanBasicIsPlain(Sanitize(Basic, t));
      Sanitize(Basic, t)
  }

  /** The Gemini half: the sanitised generated text, or the fixed apology when
      generation fails (`None`). */
  function GeminiPart(g: Option<string>): (r: string)
    ensures Plain(r)
    ensures g.Some? ==> r == Sanitize(Basic, g.value)
    ensures g.Some? ==> Clean(Basic, r) && Visible(r) == Survivors(Basic, g.value)
    ensures g.None? ==> r == GeminiFallback
  {
    FallbacksArePlain();
    match g
    case None => GeminiFallback
    case Some(t) =>
      SanitizeKeepsText(Basic, t);
      CleanBasicIsPlain(Sanitize(Basic, t));
      Sanitize(Basic, t)
  }

  /** The two halves under their Markdown headings. */
  function CombinedText(d: string, g: string): string
  {
    DeepSeekHeading + d + GeminiHeading + g
  }

  /** A reader that splits the combined text at the Gemini heading gets the
      DeepSeek half (still under its heading) and the Gemini half back. */
  lemma CombinedSplit(d: string, g: string)
    requires Plain(d) && Plain(g)
    ensures Split(CombinedText(d, g), GeminiHeading) == [DeepSeekHeading + d, g]
  {
    var t := CombinedText(d, g);
    var k := |DeepSeekHeading| + |d|;
    HeadingIndex(d, g);
    assert t[..k] == DeepSeekHeading + d;
    assert t[k + |GeminiHeading|..] == g;
    PlainHasNoHeading(g);
    SplitWithoutSeparator(g, GeminiHeading);
  }

  /** The first Gemini heading in the combined text is the one put there. */
  lemma HeadingIndex(d: string, g: string)
    requires Plain(d)
    ensures IndexOf(CombinedText(d, g), GeminiHeading) == Some(|DeepSeekHeading| + |d|)
  {
    var t := CombinedText(d, g);
    var k := |DeepSeekHeading| + |d|;
    assert t == (DeepSeekHeading + d) + GeminiHeading + g;
    assert t[k..k + |GeminiHeading|] == GeminiHeading;
    assert OccursAt(t, GeminiHeading, k);
    forall j: nat | j < k ensures !OccursAt(t, GeminiHeading, j) {
      NoHeadingBefore(d, g, j);
    }
  }

  lemma PlainHasNoHeading(g: string)
    requires Plain(g)
    ensures !Contains(g, GeminiHeading)
  {
    forall j: nat ensures !OccursAt(g, GeminiHeading, j) {
      if j + |GeminiHeading| <= |g| {
        assert g[j..j + |GeminiHeading|][0] == g[j] != '\n';
      }
    }
  }

  lemma NoHeadingBefore(d: string, g: string, j: nat)
    requires Plain(d) && j < |DeepSeekHeading| + |d|
    ensures !OccursAt(CombinedText(d, g), GeminiHeading, j)
  {
    var t := CombinedText(d, g);
    var n := |DeepSeekHeading|;
    var m := |GeminiHeading|;
    if j + m <= |t| {
      if j < n - 2 {
        assert t[j] == DeepSeekHeading[j] != '\n';
        assert t[j..j + m][0] != GeminiHeading[0];
      } else if j < n {
        assert t[j + 2] == (d + GeminiHeading + g)[j + 2 - n];
        if j + 2 - n < |d| {
          assert t[j + 2] == d[j + 2 - n] != '#';
        } else {
          assert t[j + 2] == GeminiHeading[j + 2 - n - |d|] == '\n';
        }
        assert t[j..j + m][2] != GeminiHeading[2];
      } else {
        assert t[j] == d[j - n] != '\n';
        assert t[j..j + m][0] != GeminiHeading[0];
      }
    }
  }

  /** The prompt-independent part of the combined endpoint: after the method
      gate, both keys must be set, then the body guards run. */
  function Combined(verb: string, body: Body, deepseekKey: string, geminiKey: string,
                    deepseek: ChatCall, gemini: Option<string>, env: SaveEnv): (r: Outcome)
    ensures r.response.status in {200, 400, 405, 500, 503}
    ensures r.response.status == 200 <==>
              verb == "OPTIONS" || (verb == "POST" && deepseekKey != "" && geminiKey != "" && CheckDream(body, true).Ok?)
    ensures verb == "POST" && (deepseekKey == "" || geminiKey == "") ==> r.response == Response(503, Error(ServiceUnavailable))
    ensures r.response != Response(503, Error(ServiceBusy))
    ensures r.response.payload.Interpretation? ==>
              r.response.payload.interpretation == CombinedText(DeepSeekPart(deepseek), GeminiPart(gemini))
    ensures SavesResult(verb, body, env, "combined", r)
  {
    match MethodGate(verb)
    case Some(resp) => Outcome(resp, None)
    case None =>
      if deepseekKey == "" || geminiKey == "" then Outcome(Response(503, Error(ServiceUnavailable)), None)
      else match CheckDream(body, true)
        case Err(resp) => Outcome(resp, None)
        case Ok(dream) =>
          var text := CombinedText(DeepSeekPart(deepseek), GeminiPart(gemini));
          Outcome(Response(200, Interpretation(text)), SavedRow(env, dream, text, "combined"))
  }

  /** Neither provider can make the combined endpoint fail: the status and the
      decision to save do not depend on what the providers return. */
  lemma CombinedToleratesProviders(verb: string, body: Body, deepseekKey: string, geminiKey: string,
                                   d1: ChatCall, g1: Option<string>, d2: ChatCall, g2: Option<string>, env: SaveEnv)
    ensures Combined(verb, body, deepseekKey, geminiKey, d1, g1, env).response.status
         == Combined(verb, body, deepseekKey, geminiKey, d2, g2, env).response.status
    ensures Combined(verb, body, deepseekKey, geminiKey, d1, g1, env).saved.Some?
         == Combined(verb, body, deepseekKey, geminiKey, d2, g2, env).saved.Some?
  {
  }

  /** A successful combined response splits at the Gemini heading into exactly
      the two halves. */
  lemma CombinedResponseSplits(verb: string, body: Body, deepseekKey: string, geminiKey: string,
                               deepseek: ChatCall, gemini: Option<string>, env: SaveEnv)
    requires Combined(verb, body, deepseekKey, geminiKey, deepseek, gemini, env).response.payload.Interpretation?
    ensures Split(Combined(verb, body, deepseekKey, geminiKey, deepseek, gemini, env).response.payload.interpretation, GeminiHeading)
         == [DeepSeekHeading + DeepSeekPart(deepseek), GeminiPart(gemini)]
  {
    CombinedSplit(DeepSeekPart(deepseek), GeminiPart(gemini));
  }

  /** The apology text is used as it is, so the combined response can hold
      characters (here the apostrophe) that the sanitiser would remove. */
  lemma FallbackBypassesSanitizer()
    ensures Sanitize(Basic, DeepSeekFallback) != DeepSeekFallback
    ensures Sanitize(Basic, GeminiFallback) != GeminiFallback
  {
    assert DeepSeekFallback[12] == '\'';
    SanitizerChanges(DeepSeekFallback, 12);
    assert GeminiFallback[10] == '\'';
    SanitizerChanges(GeminiFallback, 10);
  }

  /** Text holding a character the sanitiser removes is changed by it. */
  lemma SanitizerChanges(s: string, i: nat)
    requires i < |s| && !OutputChar(Basic, s[i])
    ensures Sanitize(Basic, s) != s
  {
    SanitizeFixedPoints(Basic, s);
  }

  // ---------------------------------------------------------------------------
  // pages/api/interpret-aiml.ts and pages/api/interpret-openai.ts

  /** The key that `process.env.X || '...'` falls back to; its value is not
      modelled, only that it is not empty. */
  const BuiltInKey := "built-in-key"

  /** `process.env.X || BuiltInKey`: an unset or empty variable gives the built-in key. */
  function KeyWithFallback(envKey: string): (k: string)
    ensures k != ""
    ensures envKey != "" ==> k == envKey
  {
    if envKey == "" then BuiltInKey else envKey
  }

  /** The AIML endpoint: the guard chain, one chat call, the plain sanitiser, the
      row saved under 'aiml'. */
  function Aiml(verb: string, body: Body, envKey: string, call: ChatCall, env: SaveEnv): (r: Outcome)
    ensures r.response.status in {200, 400, 405, 500, 503}
    ensures r.response != Response(503, Error(ServiceUnavailable))
    ensures r.response.status == 200 <==>
              verb == "OPTIONS" || (verb == "POST" && CheckDream(body, true).Ok? && ReplyText(call).Some?)
    ensures verb == "POST" && CheckDream(body, true).Ok? && ReplyText(call).None? ==> r == Outcome(Response(503, Error(ServiceBusy)), None)
    ensures r.response.payload.Interpretation? ==>
              ReplyText(call).Some? && r.response.payload.interpretation == Sanitize(Basic, ReplyText(call).value)
    ensures r.response.payload.Interpretation? ==>
              ReplyText(call).Some? && Clean(Basic, r.response.payload.interpretation)
              && Visible(r.response.payload.interpretation) == Survivors(Basic, ReplyText(call).value)
    ensures SavesResult(verb, body, env, "aiml", r)
  {
    match MethodGate(verb)
    case Some(resp) => Outcome(resp, None)
    case None =>
      if KeyWithFallback(envKey) == "" then Outcome(Response(503, Error(ServiceUnavailable)), None)
      else match CheckDream(body, true)
        case Err(resp) => Outcome(resp, None)
        case Ok(dream) =>
          if ReplyText(call).Some? then SanitizeKeepsText(Basic, ReplyText(call).value); Deliver(ReplyText(call), Basic, dream, "aiml", env)
          else Deliver(None, Basic, dream, "aiml", env)
  }

  /** `useMockApi` is fixed to true, so the chat API is never called. */
  const UseMockApi := true

  const MockContent :=
    "\n"
    + "# Rüya Yorumu\n"
    + "\n"
    + "## 1. Genel Yorum\n"
    + "Bu rüya, bilinçaltınızdaki bazı endişeleri ve korkuları yansıtıyor. Rüyanızda yaşadığınız deneyimler, günlük hayatınızdaki bazı durumlarla bağlantılı olabilir.\n"
    + "\n"
    + "## 2. Psikolojik Analiz\n"
    + "Rüyanız, kontrolü kaybetme korkusu ve belirsizlikle başa çıkma çabanızı gösteriyor. Bu duygular, hayatınızdaki değişimlerle ilgili olabilir. Bilinçaltınız, bu değişimleri rüya yoluyla işlemeye çalışıyor.\n"
    + "\n"
    + "## 3. Semboller ve Anlamları\n"
    + "Rüyanızdaki semboller, içsel durumunuzu yansıtıyor. Bu semboller, çözülmemiş duygusal meselelerinizi temsil ediyor olabilir.\n"
    + "\n"
    + "## 4. Öneriler\n"
    + "- Günlük tutarak rüyalarınızı kaydedin\n"
    + "- Meditasyon yaparak iç huzurunuzu güçlendirin\n"
    + "- Endişelerinizi bir arkadaşınızla veya bir uzmanla paylaşın\n"
    + "- Kendinize zaman ayırın ve rahatlamağa özen gösterin\n"
    + "            "

  /** The canned reply `getMockOpenAIResponse` resolves to, whatever the dream. */
  const MockReply := Replied(Some(ChatData(Some([Choice(Some(Message(Some(MockContent))))]))))

  /** The canned reply passes the shape test and carries the mock text. */
  lemma MockReplyText()
    ensures ReplyText(MockReply) == Some(MockContent)
  {
  }

  /** The OpenAI endpoint: the guard chain, the mock reply `mock` (or, were the
      mock switched off, the real call), the Turkish sanitiser, the row saved
      under 'openai'. The source passes `MockReply` as `mock`. */
  function OpenAi(verb: string, body: Body, envKey: string, mock: ChatCall, realCall: ChatCall, env: SaveEnv): (r: Outcome)
    ensures r.response.status in {200, 400, 405, 500, 503}
    ensures r.response != Response(503, Error(ServiceUnavailable))
    ensures r.response.status == 200 <==>
              verb == "OPTIONS" || (verb == "POST" && CheckDream(body, true).Ok? && ReplyText(mock).Some?)
    ensures r.response.payload.Interpretation? ==>
              ReplyText(mock).Some? && r.response.payload.interpretation == Sanitize(Turkish, ReplyText(mock).value)
    ensures SavesResult(verb, body, env, "openai", r)
  {
    match MethodGate(verb)
    case Some(resp) => Outcome(resp, None)
    case None =>
      if KeyWithFallback(envKey) == "" then Outcome(Response(503, Error(ServiceUnavailable)), None)
      else match CheckDream(body, true)
        case Err(resp) => Outcome(resp, None)
        case Ok(dream) =>
          var reply := if UseMockApi then mock else realCall;
          Deliver(ReplyText(reply), Turkish, dream, "openai", env)
  }

  /** With the mock switched on, what the provider would answer changes nothing,
      and every successful response carries the same text whatever the dream. */
  lemma OpenAiIgnoresProvider(verb: string, body: Body, envKey: string, mock: ChatCall, c1: ChatCall, c2: ChatCall,
                              env: SaveEnv, verb2: string, body2: Body, env2: SaveEnv)
    ensures OpenAi(verb, body, envKey, mock, c1, env) == OpenAi(verb, body, envKey, mock, c2, env)
    ensures OpenAi(verb, body, envKey, mock, c1, env).response.payload.Interpretation?
            && OpenAi(verb2, body2, envKey, mock, c2, env2).response.payload.Interpretation?
            ==> OpenAi(verb, body, envKey, mock, c1, env).response == OpenAi(verb2, body2, envKey, mock, c2, env2).response
  {
  }

  /** With the source's canned reply the endpoint never answers 503: every valid
      dream gets the sanitised mock text. */
  lemma OpenAiWithMockNeverBusy(verb: string, body: Body, envKey: string, realCall: ChatCall, env: SaveEnv)
    ensures OpenAi(verb, body, envKey, MockReply, realCall, env).response.status in {200, 400, 405, 500}
    ensures OpenAi(verb, body, envKey, MockReply, realCall, env).response.status == 200
            <==> verb == "OPTIONS" || (verb == "POST" && CheckDream(body, true).Ok?)
  {
    MockReplyText();
  }

  // ---------------------------------------------------------------------------
  // pages/api/interpret-deepseek.ts

  /** The DeepSeek endpoint: no fallback key, no substring log before the type
      test, the reply read without a shape test, the row saved under the model
      name 'deepseek-chat'. */
  function DeepSeek(verb: string, body: Body, key: string, call: ChatCall, env: SaveEnv): (r: Outcome)
    ensures r.response.status in {200, 400, 405, 503}
    ensures verb == "POST" && key == "" ==> r.response == Response(503, Error(ServiceUnavailable))
    ensures r.response.status == 200 <==>
              verb == "OPTIONS" || (verb == "POST" && key != "" && CheckDream(body, false).Ok? && ReplyText(call).Some?)
    ensures r.response.payload.Interpretation? ==>
              ReplyText(call).Some? && r.response.payload.interpretation == Sanitize(Basic, ReplyText(call).value)
    ensures r.response.payload.Interpretation? ==>
              ReplyText(call).Some? && Clean(Basic, r.response.payload.interpretation)
              && Visible(r.response.payload.interpretation) == Survivors(Basic, ReplyText(call).value)
    ensures SavesResult(verb, body, env, "deepseek-chat", r)
  {
    match MethodGate(verb)
    case Some(resp) => Outcome(resp, None)
    case None =>
      if key == "" then Outcome(Response(503, Error(ServiceUnavailable)), None)
      else match CheckDream(body, false)
        case Err(resp) => Outcome(resp, None)
        case Ok(dream) =>
          RawReplyTextAgrees(call);
          if ReplyText(call).Some? then SanitizeKeepsText(Basic, ReplyText(call).value); Deliver(RawReplyText(call), Basic, dream, "deepseek-chat", env)
          else Deliver(RawReplyText(call), Basic, dream, "deepseek-chat", env)
  }

  /** DeepSeek and AIML answer a valid request alike, and differ only in the
      name the row is saved under; they part ways on a truthy non-string dream,
      which only AIML's log line turns into a 500. */
  lemma DeepSeekMatchesAiml(body: Body, key: string, call: ChatCall, env: SaveEnv)
    requires key != ""
    ensures body.Body? && body.dream.Str? ==> DeepSeek("POST", body, key, call, env).response == Aiml("POST", body, key, call, env).response
    ensures body.Body? && body.dream.Truthy? ==>
              DeepSeek("POST", body, key, call, env).response.status == 400 && Aiml("POST", body, key, call, env).response.status == 500
  {
    RawReplyTextAgrees(call);
  }

  // ---------------------------------------------------------------------------
  // pages/api/interpret.ts

  /** What `model.generateContent(prompt)` and `response.text()` yield: the text,
      or a failure carrying the message of the `Error` thrown (`None` when what is
      thrown is not an `Error`). The endpoint's generation is an input given as a
      function of the dream; as `Prompt` is injective, this is the same as a
      function of the prompt. */
  datatype Generation = Generated(text: string) | Failed(message: Option<string>)

  const PromptHead :=
    "Sen deneyimli bir rüya yorumcususun. Rüyaları psikolojik, spiritüel ve sembolik açıdan detaylı olarak analiz ediyorsun.\n"
    + "Şimdi sana vereceğim rüyayı çok detaylı bir şekilde yorumla. Her bölümde en az 3-4 cümle kullan ve derinlemesine analiz yap.\n"
    + "Yanıtını tam olarak aşağıdaki formatta ver:\n"
    + "\n"
    + "**1. GENEL ANLAMI:**\n"
    + "[Rüyanın genel anlamını, ana mesajını ve rüya sahibine vermek istediği mesajı detaylı olarak açıkla. Rüyanın genel atmosferini ve duygusal tonunu da belirt. En az 4-5 cümle kullan.]\n"
    + "\n"
    + "**2. SEMBOLLER VE ANLAMLARI:**\n"
    + "- [Sembol 1]: [Bu sembolün genel anlamını, kültürel ve psikolojik yorumunu, ve rüyadaki özel bağlamını detaylıca açıkla]\n"
    + "- [Sembol 2]: [Her sembol için en az 2-3 cümlelik detaylı açıklama ver]\n"
    + "- [Sembol 3]: [Sembollerin birbiriyle olan ilişkisini de açıkla]\n"
    + "\n"
    + "**3. PSİKOLOJİK YORUM:**\n"
    + "[Rüyanın psikolojik boyutunu derinlemesine analiz et. Bilinçaltı mesajları, bastırılmış duygular, korkular veya arzuları açıkla. Jung ve Freud gibi psikologların teorilerine de değin. En az 4-5 cümle kullan.]\n"
    + "\n"
    + "**4. HAYATINIZA YANSIMALARI:**\n"
    + "- [Yansıma 1]: [Her yansımayı en az 2-3 cümle ile detaylı açıkla]\n"
    + "- [Yansıma 2]: [Rüyanın gerçek hayattaki olası yansımalarını ve etkilerini detaylandır]\n"
    + "- [Yansıma 3]: [Kişisel gelişim ve kendini tanıma açısından öneriler ver]\n"
    + "\n"
    + "**5. DİKKAT EDİLMESİ GEREKENLER:**\n"
    + "- [Öneri 1]: [Her öneriyi detaylı açıkla ve pratik tavsiyeler ver]\n"
    + "- [Öneri 2]: [Rüyanın uyarı niteliğindeki mesajlarını detaylandır]\n"
    + "- [Öneri 3]: [Gelecekte dikkat edilmesi gereken noktaları belirt]\n"
    + "\n"

  /** The prompt: the fixed instructions, then `Rüya: ` and the dream as sent. */
  function Prompt(dream: string): string
  {
    PromptHead + "Rüya: " + dream
  }

  /** A common prefix can be cancelled. */
  lemma PrefixCancels(h: string, a: string, b: string)
    requires h + a == h + b
    ensures a == b
  {
    assert a == (h + a)[|h|..];
  }

  /** Different dreams give different prompts. */
  lemma PromptInjective(d1: string, d2: string)
    requires Prompt(d1) == Prompt(d2)
    ensures d1 == d2
  {
    PrefixCancels(PromptHead + "Rüya: ", d1, d2);
  }

  const InvalidDream := "Geçersiz rüya metni"
  const InvalidDreamDetails := "Lütfen en az 3 karakter içeren bir rüya metni girin"
  const InterpretFailed := "Rüya yorumlanırken bir hata oluştu"
  const UnknownError := "Bilinmeyen bir hata oluştu"
  /** The message of the TypeError thrown by destructuring a missing body. */
  const MissingBodyMessage := "Cannot destructure property 'dream' of 'req.body' as it is undefined."
  const MinDreamLength := 3

  /** The Gemini-only endpoint: no key check, no upper length bound, no
      sanitising and no saving; the generated text is returned as it comes. */
  function Interpret(verb: string, body: Body, generate: string -> Generation): (r: Response)
    ensures r.status in {200, 400, 405, 500}
    ensures r.status == 200 <==>
              verb == "OPTIONS" || (verb == "POST" && body.Body? && body.dream.Str? && |body.dream.value| >= MinDreamLength
                                    && generate(body.dream.value).Generated?)
    ensures r.payload.Interpretation? ==>
              body.Body? && body.dream.Str? && generate(body.dream.value).Generated?
              && r.payload.interpretation == generate(body.dream.value).text
    ensures r.status == 400 <==> verb == "POST" && body.Body? && !(body.dream.Str? && |body.dream.value| >= MinDreamLength)
    ensures r.status == 400 ==> r.payload == ErrorDetails(InvalidDream, InvalidDreamDetails)
    ensures r.status == 500 ==> r.payload.ErrorDetails? && r.payload.error == InterpretFailed
    ensures verb != "OPTIONS" && verb != "POST" ==> r == Response(405, Error(MethodNotAllowed))
    ensures verb == "POST" && body.NoBody? ==> r == Response(500, ErrorDetails(InterpretFailed, MissingBodyMessage))
    ensures verb == "POST" && body.Body? && body.dream.Str? && |body.dream.value| >= MinDreamLength
            && generate(body.dream.value).Failed? ==>
              var m := generate(body.dream.value).message;
              r == Response(500, ErrorDetails(InterpretFailed, if m.Some? then m.value else UnknownError))
  {
    if verb == "OPTIONS" then Response(200, NoContent)
    else if verb != "POST" then Response(405, Error(MethodNotAllowed))
    else match body
      case NoBody => Response(500, ErrorDetails(InterpretFailed, MissingBodyMessage))
      case Body(dream) =>
        if !dream.Str? || |dream.value| < MinDreamLength then Response(400, ErrorDetails(InvalidDream, InvalidDreamDetails))
        else match generate(dream.value)
          case Generated(text) => Response(200, Interpretation(text))
          case Failed(message) =>
            Response(500, ErrorDetails(InterpretFailed, if message.Some? then message.value else UnknownError))
  }

  /** Unlike the other endpoints, a dream longer than 1000 characters is
      accepted and passed on in full. */
  lemma InterpretHasNoUpperBound(dream: string, generate: string -> Generation)
    requires |dream| > MaxDreamLength && generate(dream).Generated?
    ensures Interpret("POST", Body(Str(dream)), generate).status == 200
    ensures CheckDream(Body(Str(dream)), false) == Err(Response(400, Error(DreamTooLong)))
  {
  }
}
