/** The generation handlers of routes/openai.js and the prompt replacement
    of routes/admin.js, over the four JSON files they read and write. Each
    handler reads the files it needs, asks the text generator once, and
    writes back what changed; here each file is a field and each handler one
    atomic method. The generator's answer is the parameter `reply` (`None`
    when the call failed), and each handler returns the request it sends. */
module Store {
  import opened Wrappers
  import opened Fallback
  import opened Products
  import opened Derived
  import opened Prompts

  /** What the handler asks of the generator, by its parameters; the wording
      of each instruction is not modelled. */
  datatype Instruction =
    | NicheIdeas
    | ContentsFor(niche: string)
    | ChapterFor(chapterNumber: string, chapterTitle: string, niche: string)
    | AssetFor(asset: AssetType, productTitle: string, niche: string)
    | MentorMessage(message: string)
    | PlanFor(productTitle: string, niche: string)

  /** One call of the generator: system prompt, instruction, temperature. */
  datatype Request = Request(system: string, instruction: Instruction, temperature: real)

  const DefaultTemperature: real := 0.7
  const ChapterTemperature: real := 0.8
  const PlanTemperature: real := 0.6

  /** The answer of a handler: its result, or the error it reports. */
  datatype Outcome<T> = Ok(value: T) | NoProduct | InvalidAssetType | UpstreamFailed

  /** The answer of `/generateTOC`. */
  datatype TocAnswer = TocAnswer(tableOfContents: TableOfContents, productTitle: string)

  class ContentStore {
    var prompts: PromptMap
    var context: Context
    var ghostwriter: GhostStore
    var mentor: MentorStore

    /** The store as first read; a file that is missing or does not parse
        reads as an empty object. */
    constructor (savedPrompts: Option<PromptMap>, savedContext: Option<Context>,
                 savedGhostwriter: Option<GhostStore>, savedMentor: Option<MentorStore>)
      ensures prompts == savedPrompts.GetOr(map[]) && context == savedContext.GetOr(map[])
      ensures ghostwriter == savedGhostwriter.GetOr(map[]) && mentor == savedMentor.GetOr(map[])
    {
      prompts := savedPrompts.GetOr(map[]);
      context := savedContext.GetOr(map[]);
      ghostwriter := savedGhostwriter.GetOr(map[]);
      mentor := savedMentor.GetOr(map[]);
    }

    /** `PUT /prompts`: the whole mapping is replaced by the one supplied. */
    method UpdatePrompts(newPrompts: PromptMap)
      modifies this`prompts
      ensures prompts == newPrompts
    {
      prompts := newPrompts;
    }

    /** `POST /generateNiches`: nothing is stored. */
    method GenerateNiches(decode: string -> Option<Json.Json>, reply: Option<string>)
      returns (r: Outcome<NicheList>, sent: Request)
      ensures sent == Request(SystemPrompt(prompts, NichesKey, NichesDefault), NicheIdeas, DefaultTemperature)
      ensures reply.None? ==> r == UpstreamFailed
      ensures reply.Some? ==> r == Ok(ParseNiches(decode, reply.value))
    {
      sent := Request(SystemPrompt(prompts, NichesKey, NichesDefault), NicheIdeas, DefaultTemperature);
      if reply.None? {
        return UpstreamFailed, sent;
      }
      r := Ok(ParseNiches(decode, reply.value));
    }

    /** `POST /generateTOC`: a new product is appended to the token's history. */
    method GenerateToc(niche: string, token: string, decode: string -> Option<Json.Json>,
                       reply: Option<string>, now: string)
      returns (r: Outcome<TocAnswer>, sent: Request)
      modifies this`context
      ensures sent == Request(SystemPrompt(prompts, TocKey, TocDefault), ContentsFor(niche), DefaultTemperature)
      ensures reply.None? ==> r == UpstreamFailed && context == old(context)
      ensures reply.Some? ==>
        var toc := ParseToc(decode, reply.value);
        && r == Ok(TocAnswer(toc, niche + GuideSuffix))
        && context == AppendProduct(old(context), token, NewProduct(niche, toc, now))
    {
      sent := Request(SystemPrompt(prompts, TocKey, TocDefault), ContentsFor(niche), DefaultTemperature);
      if reply.None? {
        return UpstreamFailed, sent;
      }
      var toc := ParseToc(decode, reply.value);
      var product := NewProduct(niche, toc, now);
      context := AppendProduct(context, token, product);
      r := Ok(TocAnswer(toc, product.productTitle));
    }

    /** `POST /generateChapter`: the chapter goes into the current product
        when there is one; the text is returned either way. */
    method GenerateChapter(niche: string, chapterTitle: string, chapterNumber: string, token: string,
                           reply: Option<string>)
      returns (r: Outcome<string>, sent: Request)
      modifies this`context
      ensures sent == Request(SystemPrompt(prompts, ChaptersKey, ChaptersDefault),
                              ChapterFor(chapterNumber, chapterTitle, niche), ChapterTemperature)
      ensures reply.None? ==> r == UpstreamFailed && context == old(context)
      ensures reply.Some? ==>
        && r == Ok(reply.value)
        && context == WriteChapter(old(context), token, chapterNumber, Chapter(chapterTitle, reply.value))
    {
      sent := Request(SystemPrompt(prompts, ChaptersKey, ChaptersDefault),
                      ChapterFor(chapterNumber, chapterTitle, niche), ChapterTemperature);
      if reply.None? {
        return UpstreamFailed, sent;
      }
      context := WriteChapter(context, token, chapterNumber, Chapter(chapterTitle, reply.value));
      r := Ok(reply.value);
    }

    /** `POST /generateGhostwriter`: without a product, and then for an
        unknown asset type, the handler answers with an error before asking
        the generator; otherwise the asset is stored for the current product. */
    method GenerateGhostwriter(token: string, assetType: string, reply: Option<string>, now: string)
      returns (r: Outcome<string>, sent: Option<Request>)
      modifies this`ghostwriter
      ensures HistoryOf(context, token) == [] ==>
        r == NoProduct && sent.None? && ghostwriter == old(ghostwriter)
      ensures HistoryOf(context, token) != [] && ParseAssetType(assetType).None? ==>
        r == InvalidAssetType && sent.None? && ghostwriter == old(ghostwriter)
      ensures HistoryOf(context, token) != [] && ParseAssetType(assetType).Some? ==>
        var product, asset := Current(context, token), ParseAssetType(assetType).value;
        && sent == Some(Request(SystemPrompt(prompts, GhostwriterKey, GhostwriterDefault),
                                AssetFor(asset, product.productTitle, product.niche), DefaultTemperature))
        && (reply.None? ==> r == UpstreamFailed && ghostwriter == old(ghostwriter))
        && (reply.Some? ==>
              && r == Ok(reply.value)
              && ghostwriter == StoreAsset(old(ghostwriter), token, asset, reply.value, product.productTitle, now))
    {
      var history := HistoryOf(context, token);
      if history == [] {
        return NoProduct, None;
      }
      var product := history[|history| - 1];
      var parsed := ParseAssetType(assetType);
      if parsed.None? {
        return InvalidAssetType, None;
      }
      var asset := parsed.value;
      sent := Some(Request(SystemPrompt(prompts, GhostwriterKey, GhostwriterDefault),
                           AssetFor(asset, product.productTitle, product.niche), DefaultTemperature));
      if reply.None? {
        return UpstreamFailed, sent;
      }
      ghostwriter := StoreAsset(ghostwriter, token, asset, reply.value, product.productTitle, now);
      r := Ok(reply.value);
    }

    /** `POST /generateMentorResponse`: the system prompt mentions the
        current product when there is one, and the exchange is logged. */
    method GenerateMentorResponse(token: string, message: string, reply: Option<string>, now: string)
      returns (r: Outcome<string>, sent: Request)
      modifies this`mentor
      ensures sent == Request(SystemPrompt(prompts, MentorKey, MentorDefault) + ContextInfo(HistoryOf(context, token)),
                              MentorMessage(message), DefaultTemperature)
      ensures reply.None? ==> r == UpstreamFailed && mentor == old(mentor)
      ensures reply.Some? ==>
        && r == Ok(reply.value)
        && mentor == AppendExchange(old(mentor), token, Exchange(now, message, reply.value))
    {
      var contextInfo := ContextInfo(HistoryOf(context, token));
      sent := Request(SystemPrompt(prompts, MentorKey, MentorDefault) + contextInfo,
                      MentorMessage(message), DefaultTemperature);
      if reply.None? {
        return UpstreamFailed, sent;
      }
      mentor := AppendExchange(mentor, token, Exchange(now, message, reply.value));
      r := Ok(reply.value);
    }

    /** `POST /generateMentorPlan`: needs a product; the plan and its time
        replace any earlier plan. */
    method GenerateMentorPlan(token: string, reply: Option<string>, now: string)
      returns (r: Outcome<string>, sent: Option<Request>)
      modifies this`mentor
      ensures HistoryOf(context, token) == [] ==> r == NoProduct && sent.None? && mentor == old(mentor)
      ensures HistoryOf(context, token) != [] ==>
        var product := Current(context, token);
        && sent == Some(Request(SystemPrompt(prompts, MentorKey, PlanDefault),
                                PlanFor(product.productTitle, product.niche), PlanTemperature))
        && (reply.None? ==> r == UpstreamFailed && mentor == old(mentor))
        && (reply.Some? ==> r == Ok(reply.value) && mentor == SetPlan(old(mentor), token, Plan(reply.value, now)))
    {
      var history := HistoryOf(context, token);
      if history == [] {
        return NoProduct, None;
      }
      var product := history[|history| - 1];
      sent := Some(Request(SystemPrompt(prompts, MentorKey, PlanDefault),
                           PlanFor(product.productTitle, product.niche), PlanTemperature));
      if reply.None? {
        return UpstreamFailed, sent;
      }
      mentor := SetPlan(mentor, token, Plan(reply.value, now));
      r := Ok(reply.value);
    }
  }
}
