/** The pure parts of the backend proxy: how a chat request is shaped for
    each provider family, how the configured base URLs are normalised into
    endpoint URLs, and how a single-shot reply is reduced to its text. */
module Proxy {
  import opened Common
  import opened Strings
  import opened Providers

  /** A message as the proxy receives it in the request body. */
  datatype WireMessage = WireMessage(role: string, content: string, attachments: Option<seq<string>>)

  /** The error the proxy answers with: an HTTP status and an error message. */
  datatype ProxyError = ProxyError(status: int, message: string)

  // ---------------------------------------------------------------------
  // Chat-completions family (openai, custom, exo)
  // ---------------------------------------------------------------------

  datatype ContentPart = TextPart(text: string) | ImageUrlPart(url: string)

  /** A message's `content`: a plain string, or a list of typed parts. */
  datatype ChatContent = PlainText(text: string) | Parts(parts: seq<ContentPart>)

  datatype ChatEntry = ChatEntry(role: string, content: ChatContent)

  /** `m.attachments && m.attachments.length > 0` */
  predicate HasAttachments(m: WireMessage) {
    m.attachments.Some? && |m.attachments.value| > 0
  }

  /** One message of `formatMessages`: the role is kept; without attachments
      the content is the original string, with k attachments it is one text
      part holding that string followed by k image parts, one per attachment
      in order, each carrying the attachment unchanged. */
  function FormatMessage(m: WireMessage): (e: ChatEntry)
    ensures e.role == m.role
    ensures !HasAttachments(m) ==> e.content == PlainText(m.content)
    ensures HasAttachments(m) ==>
      var atts := m.attachments.value;
      && e.content.Parts?
      && |e.content.parts| == |atts| + 1
      && e.content.parts[0] == TextPart(m.content)
      && forall i :: 0 <= i < |atts| ==> e.content.parts[i + 1] == ImageUrlPart(atts[i])
  {
    if HasAttachments(m) then
      var atts := m.attachments.value;
      ChatEntry(m.role, Parts([TextPart(m.content)] + seq(|atts|, i requires 0 <= i < |atts| => ImageUrlPart(atts[i]))))
    else
      ChatEntry(m.role, PlainText(m.content))
  }

  /** `formatMessages`: as many entries as messages, in the same order. */
  function FormatMessages(msgs: seq<WireMessage>): (r: seq<ChatEntry>)
    ensures |r| == |msgs|
    ensures forall i :: 0 <= i < |msgs| ==> r[i] == FormatMessage(msgs[i])
  {
    seq(|msgs|, i requires 0 <= i < |msgs| => FormatMessage(msgs[i]))
  }

  /** Every entry keeps its message's role, and a message without
      attachments keeps its content string. */
  lemma FormatMessagesKeepsRolesAndText(msgs: seq<WireMessage>)
    ensures |FormatMessages(msgs)| == |msgs|
    ensures forall i :: 0 <= i < |msgs| ==> FormatMessages(msgs)[i].role == msgs[i].role
    ensures forall i :: 0 <= i < |msgs| && !HasAttachments(msgs[i]) ==>
      FormatMessages(msgs)[i].content == PlainText(msgs[i].content)
  {
  }

  // ---------------------------------------------------------------------
  // Base URLs
  // ---------------------------------------------------------------------

  /** `s.replace(/\/$/, '')`: one trailing slash, if any, is dropped. */
  function StripTrailingSlash(s: string): (r: string)
    ensures EndsWith(s, "/") ==> s == r + "/"
    ensures !EndsWith(s, "/") ==> r == s
  {
    if EndsWith(s, "/") then
      assert s == s[..|s| - 1] + "/";
      s[..|s| - 1]
    else s
  }

  /** The versioned base a self-hosted endpoint is addressed under: one
      trailing slash is dropped, then `/v1` is appended unless the URL
      already ends with it. The result always ends with `/v1`. */
  function VersionedBase(s: string): (r: string)
    ensures EndsWith(r, "/v1")
    ensures EndsWith(StripTrailingSlash(s), "/v1") ==> r == StripTrailingSlash(s)
    ensures !EndsWith(StripTrailingSlash(s), "/v1") ==> r == StripTrailingSlash(s) + "/v1"
  {
    var clean := StripTrailingSlash(s);
    if EndsWith(clean, "/v1") then clean
    else
      var r := clean + "/v1";
      assert r[|r| - 3..] == "/v1";
      r
  }

  /** A base already ending in `/v1/` is not versioned a second time. */
  lemma VersionedBaseNoDoubling(x: string)
    ensures VersionedBase(x + "/v1/") == x + "/v1"
  {
    var v := x + "/v1";
    assert (v + "/")[|v + "/"| - 1] == '/' && (v + "/")[..|v|] == v;
    assert StripTrailingSlash(v + "/") == v;
    assert v[|v| - 3..] == "/v1";
  }

  /** Normalising an already normalised base changes nothing. */
  lemma VersionedBaseIdempotent(s: string)
    ensures VersionedBase(VersionedBase(s)) == VersionedBase(s)
  {
    var r := VersionedBase(s);
    assert r[|r| - 1] == '1';
    assert !EndsWith(r, "/");
  }

  /** `baseUrl?.replace(/\/$/, '') || ''`, then made versioned: an absent
      base URL is taken as `''`, which gives the bare `/v1`. */
  function ChatBase(baseUrl: Option<string>): (r: string)
    ensures EndsWith(r, "/v1")
    ensures baseUrl.None? ==> r == "/v1"
    ensures baseUrl.Some? ==> r == VersionedBase(baseUrl.value)
  {
    assert !EndsWith("", "/") && !EndsWith("", "/v1");
    VersionedBase(baseUrl.GetOr(""))
  }

  /** `baseUrl.replace(/\/v1\/?$/, '').replace(/\/$/, '')`: the cluster's
      root URL. A trailing `/v1` or `/v1/` is dropped once, then one
      trailing slash, so the result is a prefix of the input at most five
      characters shorter; what exactly goes is stated by the lemmas below. */
  function ClusterRoot(b: string): (r: string)
    ensures StartsWith(b, r)
    ensures |b| <= |r| + 5
    ensures !EndsWith(b, "/v1") && !EndsWith(b, "/v1/") && !EndsWith(b, "/") ==> r == b
  {
    var noVersion :=
      if EndsWith(b, "/v1/") then b[..|b| - 4]
      else if EndsWith(b, "/v1") then b[..|b| - 3]
      else b;
    var r := StripTrailingSlash(noVersion);
    assert b[..|r|] == r by {
      assert noVersion == b[..|noVersion|];
      assert r == noVersion[..|r|];
    }
    r
  }

  /** The two normalisations agree on a root URL without a trailing slash:
      the versioned base is the root plus `/v1`, and the cluster cleaner
      recovers the root from either the versioned base or `…/v1/`. */
  lemma BasesRoundTrip(root: string)
    requires !EndsWith(root, "/")
    ensures VersionedBase(root + "/v1") == root + "/v1"
    ensures ClusterRoot(root + "/v1") == root
    ensures ClusterRoot(root + "/v1/") == root
  {
    var v, w := root + "/v1", root + "/v1/";
    assert v[|v| - 3..] == "/v1" && v[..|v| - 3] == root;
    assert w[|w| - 4..] == "/v1/" && w[..|w| - 4] == root;
    assert v[|v| - 1] == '1';
    assert !EndsWith(v, "/");
  }

  /** A trailing `/v1` goes, then one slash before it. */
  lemma ClusterRootOfVersioned(x: string)
    ensures ClusterRoot(x + "/v1") == StripTrailingSlash(x)
  {
    var b := x + "/v1";
    assert b[|b| - 3..] == "/v1" && b[..|b| - 3] == x;
    assert b[|b| - 1] == '1';
  }

  /** A trailing `/v1/` goes, then one slash before it. */
  lemma ClusterRootOfVersionedSlash(x: string)
    ensures ClusterRoot(x + "/v1/") == StripTrailingSlash(x)
  {
    var b := x + "/v1/";
    assert b[|b| - 4..] == "/v1/" && b[..|b| - 4] == x;
  }

  /** Without a version segment only the trailing slash goes. */
  lemma ClusterRootOfSlashed(x: string)
    requires !EndsWith(x, "/v1")
    ensures ClusterRoot(x + "/") == x
  {
    var b := x + "/";
    assert b[..|x|] == x && b[|b| - 1] == '/';
    assert !EndsWith(b, "/v1/") by {
      if |b| >= 4 {
        assert b[|b| - 4..] == x[|x| - 3..] + "/";
      }
    }
  }

  /** The cleaner removes the version segment only once: a doubled
      `/v1/v1` keeps its first `/v1`. */
  lemma ClusterRootStripsOnce(x: string)
    ensures ClusterRoot(x + "/v1" + "/v1") == x + "/v1"
  {
    var v := x + "/v1";
    ClusterRootOfVersioned(v);
    assert v[|v| - 1] == '1';
    assert !EndsWith(v, "/");
  }

  // ---------------------------------------------------------------------
  // Model identifiers
  // ---------------------------------------------------------------------

  function DefaultModelId(p: Provider): string {
    match p
    case OpenAI => "gpt-4-turbo-preview"
    case Custom => "gpt-3.5-turbo"
    case Exo => "gpt-3.5-turbo"
    case Gemini => "gemini-pro"
  }

  /** `modelId || <default>`: the configured identifier when it is a
      non-empty string, the provider's default otherwise; never empty. */
  function EffectiveModelId(p: Provider, modelId: Option<string>): (r: string)
    ensures r != ""
    ensures Truthy(modelId) ==> r == modelId.value
    ensures !Truthy(modelId) ==> r == DefaultModelId(p)
  {
    if Truthy(modelId) then modelId.value else DefaultModelId(p)
  }

  // ---------------------------------------------------------------------
  // Single-shot family (gemini)
  // ---------------------------------------------------------------------

  datatype GeminiPart =
    | GeminiText(text: string)
    | InlineData(mimeType: Option<string>, data: Option<string>)

  datatype GeminiContent = GeminiContent(role: string, parts: seq<GeminiPart>)

  /** `att.split(',')[1]`: the text between the first and the second comma
      (or the end), absent when there is no comma. */
  function AttachmentData(att: string): (r: Option<string>)
    ensures r == if ',' in att then Some(Before(After(att, ','), ',')) else None
  {
    var pieces := Split(att, ',');
    SplitPieces(att, ',');
    if |pieces| > 1 then Some(pieces[1]) else None
  }

  /** `att.split(';')[0].split(':')[1]`: within the text before the first
      `;`, the text between the first `:` and the next `:` (or the end),
      absent when that text has no `:`. */
  function AttachmentMimeType(att: string): (r: Option<string>)
    ensures var head := Before(att, ';');
      r == if ':' in head then Some(Before(After(head, ':'), ':')) else None
  {
    var head := Split(att, ';')[0];
    SplitPieces(att, ';');
    var pieces := Split(head, ':');
    SplitPieces(head, ':');
    if |pieces| > 1 then Some(pieces[1]) else None
  }

  /** For a base64 data URI as RFC 2397 section 3 writes it, the two splits
      give the media type and the payload. */
  lemma DataUriParts(mediaType: string, payload: string)
    requires ':' !in mediaType && ';' !in mediaType && ',' !in mediaType
    requires ',' !in payload
    ensures var att := "data:" + mediaType + ";base64," + payload;
      AttachmentMimeType(att) == Some(mediaType) && AttachmentData(att) == Some(payload)
  {
    DataUriMimeType(mediaType, payload);
    DataUriPayload(mediaType, payload);
  }

  lemma DataUriMimeType(mediaType: string, payload: string)
    requires ':' !in mediaType && ';' !in mediaType
    ensures AttachmentMimeType("data:" + mediaType + ";base64," + payload) == Some(mediaType)
  {
    var att := "data:" + mediaType + ";base64," + payload;
    var head := "data:" + mediaType;
    assert att == head + [';'] + ("base64," + payload);
    BeforeOf(head, "base64," + payload, ';');
    assert head == "data" + [':'] + mediaType;
    BeforeOf("data", mediaType, ':');
    BeforeFree(mediaType, ':');
  }

  lemma DataUriPayload(mediaType: string, payload: string)
    requires ',' !in mediaType && ',' !in payload
    ensures AttachmentData("data:" + mediaType + ";base64," + payload) == Some(payload)
  {
    var att := "data:" + mediaType + ";base64," + payload;
    var head := "data:" + mediaType + ";base64";
    assert ',' !in head by {
      assert head == "data:" + mediaType + ";base64";
      assert forall i :: 0 <= i < |head| ==> head[i] in "data:" + ";base64" || head[i] in mediaType;
    }
    assert att == head + [','] + payload;
    BeforeOf(head, payload, ',');
    BeforeFree(payload, ',');
  }

  lemma {:induction false} BeforeOf(head: string, tail: string, sep: char)
    requires sep !in head
    ensures Before(head + [sep] + tail, sep) == head
    ensures After(head + [sep] + tail, sep) == tail
  {
    if |head| > 0 {
      var s := head + [sep] + tail;
      assert s[1..] == head[1..] + [sep] + tail;
      BeforeOf(head[1..], tail, sep);
      assert [head[0]] + head[1..] == head;
    }
    var s := head + [sep] + tail;
    assert s == Before(s, sep) + [sep] + After(s, sep);
  }

  lemma {:induction false} BeforeFree(s: string, sep: char)
    requires sep !in s
    ensures Before(s, sep) == s
  {
    if |s| > 0 {
      BeforeFree(s[1..], sep);
      assert [s[0]] + s[1..] == s;
    }
  }

  /** `{ inline_data: { mime_type, data } }` for one attachment: each field
      is absent exactly when its separator is missing from the data URI. */
  function InlinePart(att: string): (r: GeminiPart)
    ensures r.InlineData?
    ensures r.data == AttachmentData(att) && r.mimeType == AttachmentMimeType(att)
    ensures r.data.Some? <==> ',' in att
    ensures r.mimeType.Some? <==> ':' in Before(att, ';')
  {
    InlineData(AttachmentMimeType(att), AttachmentData(att))
  }

  /** `m.role === 'user' ? 'user' : 'model'` */
  function GeminiRole(role: string): (r: string)
    ensures r == "user" <==> role == "user"
    ensures r != "user" ==> r == "model"
  {
    if role == "user" then "user" else "model"
  }

  /** One turn of the Gemini `contents`: the text part first, then one
      inline-data part per attachment, in attachment order. */
  function GeminiTurn(m: WireMessage): (c: GeminiContent)
    ensures c.role == GeminiRole(m.role)
    ensures var atts := m.attachments.GetOr([]);
      && |c.parts| == 1 + |atts|
      && c.parts[0] == GeminiText(m.content)
      && forall i :: 0 <= i < |atts| ==> c.parts[i + 1] == InlinePart(atts[i])
  {
    var atts := m.attachments.GetOr([]);
    var inline := InlineParts(atts);
    var parts := [GeminiText(m.content)] + inline;
    assert forall i :: 0 <= i < |atts| ==> parts[i + 1] == inline[i];
    GeminiContent(GeminiRole(m.role), parts)
  }

  /** One inline-data part per attachment, in order. */
  function InlineParts(atts: seq<string>): (r: seq<GeminiPart>)
    ensures |r| == |atts|
    ensures forall i :: 0 <= i < |atts| ==> r[i] == InlinePart(atts[i])
  {
    seq(|atts|, i requires 0 <= i < |atts| => InlinePart(atts[i]))
  }

  function GeminiContents(msgs: seq<WireMessage>): (r: seq<GeminiContent>)
    ensures |r| == |msgs|
    ensures forall i :: 0 <= i < |msgs| ==> r[i] == GeminiTurn(msgs[i])
  {
    seq(|msgs|, i requires 0 <= i < |msgs| => GeminiTurn(msgs[i]))
  }

  /** The parts of a Gemini reply that text extraction looks at; `None`
      stands for a field that is missing. */
  datatype ReplyPart = ReplyPart(text: Option<string>)
  datatype CandidateContent = CandidateContent(parts: Option<seq<ReplyPart>>)
  datatype Candidate = Candidate(content: Option<CandidateContent>)
  datatype GeminiReply = GeminiReply(candidates: Option<seq<Candidate>>)

  /** `data.candidates?.[0]?.content?.parts?.[0]?.text`, absent when any
      step of the path is missing. */
  function FirstPartText(d: GeminiReply): (r: Option<string>)
    ensures d.candidates.None? || d.candidates.value == [] ==> r.None?
    ensures r.Some? ==>
      && d.candidates.Some? && |d.candidates.value| > 0
      && d.candidates.value[0].content.Some?
      && d.candidates.value[0].content.value.parts.Some?
      && |d.candidates.value[0].content.value.parts.value| > 0
      && r == d.candidates.value[0].content.value.parts.value[0].text
    ensures d.candidates.Some? && |d.candidates.value| > 0
            && d.candidates.value[0].content.Some?
            && d.candidates.value[0].content.value.parts.Some?
            && |d.candidates.value[0].content.value.parts.value| > 0
        ==> r == d.candidates.value[0].content.value.parts.value[0].text
  {
    if d.candidates.Some? && |d.candidates.value| > 0 then
      var c := d.candidates.value[0];
      if c.content.Some? && c.content.value.parts.Some? && |c.content.value.parts.value| > 0 then
        c.content.value.parts.value[0].text
      else None
    else None
  }

  /** `… || ''`: the first candidate's first part text when it is a
      non-empty string, `''` otherwise. */
  function ReplyText(d: GeminiReply): (r: string)
    ensures r != "" <==> Truthy(FirstPartText(d))
    ensures r != "" ==> r == FirstPartText(d).value
  {
    match FirstPartText(d)
    case Some(t) => t
    case None => ""
  }

  /** A reply whose first candidate's first part carries `t` gives `t`;
      a reply without candidates gives `''`. */
  lemma ReplyTextOfFirstPart(t: string, ps: seq<ReplyPart>, cs: seq<Candidate>)
    ensures ReplyText(GeminiReply(Some([Candidate(Some(CandidateContent(Some([ReplyPart(Some(t))] + ps))))] + cs))) == t
    ensures ReplyText(GeminiReply(None)) == "" && ReplyText(GeminiReply(Some([]))) == ""
  {
  }

  // ---------------------------------------------------------------------
  // Requests
  // ---------------------------------------------------------------------

  const OpenAIChatUrl := "https://api.openai.com/v1/chat/completions"
  const OpenAIModelsUrl := "https://api.openai.com/v1/models"
  const GeminiModelsUrl := "https://generativelanguage.googleapis.com/v1beta/models"

  /** The upstream request the proxy sends for `POST /api/chat`. */
  datatype ChatRequest =
    | CompletionsRequest(url: string, authorization: Option<string>, model: string,
                         messages: seq<ChatEntry>, stream: bool)
    | GenerateRequest(url: string, contents: seq<GeminiContent>)

  /** `Bearer <key>` when a key is configured. */
  function Authorization(apiKey: Option<string>): (r: Option<string>)
    ensures r.Some? <==> Truthy(apiKey)
    ensures r.Some? ==> r.value == "Bearer " + apiKey.value
  {
    if Truthy(apiKey) then Some("Bearer " + apiKey.value) else None
  }

  /** The chat URL under a versioned base. */
  function ChatUrlUnder(base: string): (r: string)
    requires EndsWith(base, "/v1")
    ensures r == base + "/chat/completions"
    ensures EndsWith(r, "/v1/chat/completions")
  {
    EndsWithAppend(base, "/v1", "/chat/completions");
    assert "/v1" + "/chat/completions" == "/v1/chat/completions";
    base + "/chat/completions"
  }

  /** The chat URL: fixed for `openai`, under the versioned base for the
      self-hosted providers. */
  function CompletionsUrl(p: Provider, baseUrl: Option<string>): (r: string)
    requires Streams(p)
    ensures SelfHosted(p) ==> r == ChatBase(baseUrl) + "/chat/completions"
    ensures SelfHosted(p) ==> EndsWith(r, "/v1/chat/completions")
    ensures !SelfHosted(p) ==> r == OpenAIChatUrl
  {
    if SelfHosted(p) then ChatUrlUnder(ChatBase(baseUrl))
    else OpenAIChatUrl
  }

  /** The streamed chat-completions request of `openai`, `custom` and `exo`. */
  function CompletionsCall(p: Provider, apiKey: Option<string>, baseUrl: Option<string>,
                           modelId: Option<string>, msgs: seq<WireMessage>): (r: ChatRequest)
    requires Streams(p)
    ensures r.CompletionsRequest? && r.stream
    ensures SelfHosted(p) ==> r.url == ChatBase(baseUrl) + "/chat/completions"
    ensures !SelfHosted(p) ==> r.url == OpenAIChatUrl
    ensures r.authorization == Authorization(apiKey)
    ensures r.model == EffectiveModelId(p, modelId)
    ensures r.messages == FormatMessages(msgs)
  {
    CompletionsRequest(CompletionsUrl(p, baseUrl), Authorization(apiKey),
                       EffectiveModelId(p, modelId), FormatMessages(msgs), true)
  }

  /** The request `POST /api/chat` forwards, or the error it answers with:
      a `gemini` request without a key and an unrecognised provider fail
      before any request is built, and nothing else fails. */
  function BuildChatRequest(tag: string, apiKey: Option<string>, baseUrl: Option<string>,
                            modelId: Option<string>, msgs: seq<WireMessage>): (r: Result<ChatRequest, ProxyError>)
    ensures r.Failure? <==> ParseProvider(tag).None? || (tag == "gemini" && !Truthy(apiKey))
    ensures ParseProvider(tag).None? ==> r == Failure(ProxyError(400, "Provider " + tag + " not implemented"))
    ensures tag == "gemini" && !Truthy(apiKey) ==> r == Failure(ProxyError(500, "API Key required for Gemini"))
    ensures r.Success? && r.value.CompletionsRequest? ==> r.value.stream && |r.value.messages| == |msgs|
    ensures r.Success? && r.value.GenerateRequest? ==> |r.value.contents| == |msgs|
    ensures tag == "gemini" && Truthy(apiKey) ==>
      r == Success(GenerateRequest(GeminiModelsUrl + "/" + EffectiveModelId(Gemini, modelId)
                                   + ":generateContent?key=" + apiKey.value, GeminiContents(msgs)))
    ensures ParseProvider(tag).Some? && Streams(ParseProvider(tag).value) ==>
      r == Success(CompletionsCall(ParseProvider(tag).value, apiKey, baseUrl, modelId, msgs))
  {
    match ParseProvider(tag)
    case None => Failure(ProxyError(400, "Provider " + tag + " not implemented"))
    case Some(p) =>
      if Streams(p) then Success(CompletionsCall(p, apiKey, baseUrl, modelId, msgs))
      else if !Truthy(apiKey) then
        Failure(ProxyError(500, "API Key required for Gemini"))
      else
        Success(GenerateRequest(GeminiModelsUrl + "/" + EffectiveModelId(p, modelId) + ":generateContent?key=" + apiKey.value,
                                GeminiContents(msgs)))
  }

  /** For `gemini` with a key the request goes to the model's
      `generateContent` endpoint with the key in the query string, the model
      is the configured one or `gemini-pro`, and the contents are one turn
      per message. */
  lemma GeminiChatRequest(apiKey: Option<string>, modelId: Option<string>, msgs: seq<WireMessage>)
    requires Truthy(apiKey)
    ensures var r := BuildChatRequest("gemini", apiKey, None, modelId, msgs);
      && r.Success? && r.value.GenerateRequest?
      && r.value.url == GeminiModelsUrl + "/" + (if Truthy(modelId) then modelId.value else "gemini-pro")
                        + ":generateContent?key=" + apiKey.value
      && r.value.contents == GeminiContents(msgs)
  {
  }

  /** For the self-hosted providers the chat request always goes to a URL
      ending in `/v1/chat/completions`, with an absent base URL taken as
      `''`; the model is the configured one or `gpt-3.5-turbo`. */
  lemma SelfHostedChatRequest(tag: string, apiKey: Option<string>, baseUrl: Option<string>,
                              modelId: Option<string>, msgs: seq<WireMessage>)
    requires tag == "custom" || tag == "exo"
    ensures var r := BuildChatRequest(tag, apiKey, baseUrl, modelId, msgs);
      && r.Success? && r.value.CompletionsRequest?
      && EndsWith(r.value.url, "/v1/chat/completions")
      && (baseUrl.None? ==> r.value.url == "/v1/chat/completions")
      && (baseUrl.Some? ==> r.value.url == VersionedBase(baseUrl.value) + "/chat/completions")
      && r.value.authorization == Authorization(apiKey)
      && r.value.model == (if Truthy(modelId) then modelId.value else "gpt-3.5-turbo")
      && r.value.messages == FormatMessages(msgs)
  {
    SelfHostedTag(tag);
    var p := ParseProvider(tag).value;
    var c := CompletionsCall(p, apiKey, baseUrl, modelId, msgs);
    assert BuildChatRequest(tag, apiKey, baseUrl, modelId, msgs) == Success(c);
    SelfHostedCompletionsCall(p, apiKey, baseUrl, modelId, msgs);
  }

  lemma SelfHostedCompletionsCall(p: Provider, apiKey: Option<string>, baseUrl: Option<string>,
                                  modelId: Option<string>, msgs: seq<WireMessage>)
    requires SelfHosted(p)
    ensures var c := CompletionsCall(p, apiKey, baseUrl, modelId, msgs);
      && c.CompletionsRequest?
      && EndsWith(c.url, "/v1/chat/completions")
      && (baseUrl.None? ==> c.url == "/v1/chat/completions")
      && (baseUrl.Some? ==> c.url == VersionedBase(baseUrl.value) + "/chat/completions")
      && c.authorization == Authorization(apiKey)
      && c.model == (if Truthy(modelId) then modelId.value else "gpt-3.5-turbo")
      && c.messages == FormatMessages(msgs)
  {
    var c := CompletionsCall(p, apiKey, baseUrl, modelId, msgs);
    assert c.url == ChatUrlUnder(ChatBase(baseUrl));
    if baseUrl.None? {
      assert ChatBase(baseUrl) == VersionedBase("");
      EmptyBaseChatUrl();
    }
    SelfHostedDefaultModel(p);
  }

  lemma SelfHostedDefaultModel(p: Provider)
    requires SelfHosted(p)
    ensures DefaultModelId(p) == "gpt-3.5-turbo"
  {
  }

  /** With no base URL configured the chat URL is the bare path. */
  lemma EmptyBaseChatUrl()
    ensures ChatUrlUnder(VersionedBase("")) == "/v1/chat/completions"
  {
    assert !EndsWith("", "/") && !EndsWith("", "/v1");
    assert VersionedBase("") == "/v1";
  }

  /** The request a model-discovery call (`POST /api/models`) sends. */
  datatype DiscoveryRequest = DiscoveryRequest(url: string, authorization: Option<string>)

  /** The self-hosted model listing: the versioned base followed by `/models`. */
  function ModelsUrl(baseUrl: string): (r: string)
    ensures r == VersionedBase(baseUrl) + "/models"
    ensures EndsWith(r, "/v1/models")
  {
    var base := VersionedBase(baseUrl);
    ModelsUnder(base);
    base + "/models"
  }

  lemma ModelsUnder(base: string)
    requires EndsWith(base, "/v1")
    ensures EndsWith(base + "/models", "/v1/models")
  {
    EndsWithAppend(base, "/v1", "/models");
    assert "/v1" + "/models" == "/v1/models";
  }

  /** The model-discovery request, or its error: `gemini` needs a key, the
      self-hosted providers need a base URL and list under the versioned
      base. An unrecognised provider leaves the URL empty. */
  function BuildModelsRequest(tag: string, apiKey: Option<string>, baseUrl: Option<string>): (r: Result<DiscoveryRequest, ProxyError>)
    ensures tag == "gemini" ==> (r.Failure? <==> !Truthy(apiKey))
    ensures (tag == "exo" || tag == "custom") ==> (r.Failure? <==> !Truthy(baseUrl))
    ensures (tag == "exo" || tag == "custom") && r.Success? ==>
      r.value.url == ModelsUrl(baseUrl.value) && r.value.authorization == Authorization(apiKey)
    ensures tag == "gemini" && Truthy(apiKey) ==>
      r == Success(DiscoveryRequest(GeminiModelsUrl + "?key=" + apiKey.value, None))
    ensures tag == "gemini" && !Truthy(apiKey) ==>
      r == Failure(ProxyError(500, "API Key required for Gemini model discovery"))
    ensures (tag == "exo" || tag == "custom") && !Truthy(baseUrl) ==>
      r == Failure(ProxyError(500, "Base URL required for model discovery"))
    ensures tag == "openai" ==> r == Success(DiscoveryRequest(OpenAIModelsUrl, Authorization(apiKey)))
    ensures ParseProvider(tag).None? ==> r == Success(DiscoveryRequest("", None))
  {
    match ParseProvider(tag)
    case None => Success(DiscoveryRequest("", None))
    case Some(p) =>
      if p == OpenAI then Success(DiscoveryRequest(OpenAIModelsUrl, Authorization(apiKey)))
      else if p == Gemini then
        if !Truthy(apiKey) then Failure(ProxyError(500, "API Key required for Gemini model discovery"))
        else Success(DiscoveryRequest(GeminiModelsUrl + "?key=" + apiKey.value, None))
      else if !Truthy(baseUrl) then Failure(ProxyError(500, "Base URL required for model discovery"))
      else Success(DiscoveryRequest(ModelsUrl(baseUrl.value), Authorization(apiKey)))
  }

  /** The cluster calls the proxy relays, each under the cluster's root URL. */
  datatype ClusterCall =
    | State
    | Nodes
    | Previews(encodedModelId: string)
    | CreateInstance
    | DeleteInstance(id: string)

  function ClusterPath(call: ClusterCall): string {
    match call
    case State => "/state"
    case Nodes => "/nodes"
    case Previews(m) => "/instance/previews?model_id=" + m
    case CreateInstance => "/instance"
    case DeleteInstance(id) => "/instance/" + id
  }

  function ClusterBaseError(call: ClusterCall): string {
    match call
    case State => "Base URL required for EXO state discovery"
    case Nodes => "Base URL required for EXO nodes discovery"
    case Previews(_) => "Base URL required for EXO preview"
    case CreateInstance => "Base URL required for EXO instance creation"
    case DeleteInstance(_) => "Base URL required for EXO instance deletion"
  }

  /** The upstream URL of a cluster call: it fails exactly when no base URL
      is configured, and otherwise is the cluster root followed by the
      call's path. */
  function ClusterUrl(call: ClusterCall, baseUrl: Option<string>): (r: Result<string, ProxyError>)
    ensures r.Failure? <==> !Truthy(baseUrl)
    ensures r.Failure? ==> r.error == ProxyError(500, ClusterBaseError(call))
    ensures r.Success? ==> r.value == ClusterRoot(baseUrl.value) + ClusterPath(call)
  {
    if !Truthy(baseUrl) then Failure(ProxyError(500, ClusterBaseError(call)))
    else
      Success(ClusterRoot(baseUrl.value) + ClusterPath(call))
  }
}
