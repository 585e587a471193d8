/** The two stores derived from a token's current product (routes/openai.js):
    the ghostwriter file, holding the marketing assets generated for it, and
    the mentor file, holding the conversation with the mentor and the latest
    90-day plan. */
module Derived {
  import opened Wrappers
  import opened Products

  // ------------------------------------------------------------ ghostwriter

  /** The asset types `/generateGhostwriter` accepts. */
  datatype AssetType = SalesPage | EmailSequence | VideoScripts | SocialContent

  /** The name a client sends for an asset type, and the key it is stored under. */
  function AssetName(a: AssetType): string {
    match a
    case SalesPage => "salesPage"
    case EmailSequence => "emailSequence"
    case VideoScripts => "videoScripts"
    case SocialContent => "socialContent"
  }

  /** The `switch (assetType)`: one of the four names, or nothing (the
      `default` branch, "Invalid asset type"). */
  function ParseAssetType(name: string): (r: Option<AssetType>)
    ensures r.Some? ==> AssetName(r.value) == name
    ensures r.None? ==> forall a :: AssetName(a) != name
  {
    if name == "salesPage" then Some(SalesPage)
    else if name == "emailSequence" then Some(EmailSequence)
    else if name == "videoScripts" then Some(VideoScripts)
    else if name == "socialContent" then Some(SocialContent)
    else None
  }

  /** Every asset type is accepted under its own name. */
  lemma ParseAssetName(a: AssetType)
    ensures ParseAssetType(AssetName(a)) == Some(a)
  {
    match a
    case SalesPage =>
    case EmailSequence =>
      assert AssetName(a) != "salesPage";
    case VideoScripts =>
      assert AssetName(a) != "salesPage" && AssetName(a) != "emailSequence";
    case SocialContent =>
      assert AssetName(a) != "salesPage" && AssetName(a) != "emailSequence";
      assert AssetName(a) != "videoScripts";
  }

  /** `ghostwriterData[token]`: the latest text per asset type, and the title
      of the product and the time of the latest store. */
  datatype GhostRecord = GhostRecord(assets: map<AssetType, string>, productTitle: string, lastUpdated: string)

  type GhostStore = map<string, GhostRecord>

  /** The record of `token`, or the fresh `{}` when it has none yet. */
  function GhostOf(store: GhostStore, token: string): (g: GhostRecord)
    ensures token in store ==> g == store[token]
    ensures token !in store ==> g.assets == map[]
  {
    if token in store then store[token] else GhostRecord(map[], "", "")
  }

  /** The store step of `/generateGhostwriter`: the asset's text is replaced,
      the record takes the product's title and the time, other asset types
      and other tokens' records stay. */
  function StoreAsset(store: GhostStore, token: string, asset: AssetType, content: string,
                      productTitle: string, now: string): (s: GhostStore)
    ensures s.Keys == store.Keys + {token}
    ensures s[token].assets == GhostOf(store, token).assets[asset := content]
    ensures s[token].productTitle == productTitle && s[token].lastUpdated == now
    ensures forall t :: t in store && t != token ==> s[t] == store[t]
  {
    var g := GhostOf(store, token);
    store[token := GhostRecord(g.assets[asset := content], productTitle, now)]
  }

  /** Storing an asset type twice keeps only the newer text, title and time. */
  lemma StoreAssetTwice(store: GhostStore, token: string, asset: AssetType, first: string, second: string,
                        title1: string, now1: string, title2: string, now2: string)
    ensures StoreAsset(StoreAsset(store, token, asset, first, title1, now1), token, asset, second, title2, now2)
         == StoreAsset(store, token, asset, second, title2, now2)
  {
    var g := GhostOf(store, token);
    assert g.assets[asset := first][asset := second] == g.assets[asset := second];
  }

  // ------------------------------------------------------------ mentor

  /** One entry of the mentor conversation log. */
  datatype Exchange = Exchange(timestamp: string, userMessage: string, mentorResponse: string)

  /** `plan90Days` and `planCreatedAt`. */
  datatype Plan = Plan(plan90Days: string, planCreatedAt: string)

  /** `mentorData[token]`: the conversation, oldest first, and the latest
      plan if one was made. */
  datatype MentorRecord = MentorRecord(conversations: seq<Exchange>, plan: Option<Plan>)

  type MentorStore = map<string, MentorRecord>

  /** The record of `token`, or the fresh `{conversations: []}`. */
  function MentorOf(store: MentorStore, token: string): (m: MentorRecord)
    ensures token in store ==> m == store[token]
    ensures token !in store ==> m.conversations == [] && m.plan.None?
  {
    if token in store then store[token] else MentorRecord([], None)
  }

  /** `conversations.push(exchange)`: one entry more, at the end; the plan
      and other tokens' records stay. */
  function AppendExchange(store: MentorStore, token: string, e: Exchange): (s: MentorStore)
    ensures s.Keys == store.Keys + {token}
    ensures s[token].conversations == MentorOf(store, token).conversations + [e]
    ensures s[token].plan == MentorOf(store, token).plan
    ensures forall t :: t in store && t != token ==> s[t] == store[t]
  {
    var m := MentorOf(store, token);
    store[token := m.(conversations := m.conversations + [e])]
  }

  /** The plan overwrite of `/generateMentorPlan`: the conversation and other
      tokens' records stay. */
  function SetPlan(store: MentorStore, token: string, plan: Plan): (s: MentorStore)
    ensures s.Keys == store.Keys + {token}
    ensures s[token].conversations == MentorOf(store, token).conversations
    ensures s[token].plan == Some(plan)
    ensures forall t :: t in store && t != token ==> s[t] == store[t]
  {
    store[token := MentorOf(store, token).(plan := Some(plan))]
  }

  /** A mentor request that succeeded: a message answered, or a plan made. */
  datatype MentorStep = Talk(exchange: Exchange) | NewPlan(plan: Plan)

  function ApplyStep(store: MentorStore, token: string, step: MentorStep): MentorStore {
    match step
    case Talk(e) => AppendExchange(store, token, e)
    case NewPlan(p) => SetPlan(store, token, p)
  }

  function Replay(store: MentorStore, token: string, steps: seq<MentorStep>): MentorStore
    decreases |steps|
  {
    if steps == [] then store else Replay(ApplyStep(store, token, steps[0]), token, steps[1..])
  }

  /** The exchanges among `steps`, in order. */
  function Exchanges(steps: seq<MentorStep>): seq<Exchange> {
    if steps == [] then []
    else (if steps[0].Talk? then [steps[0].exchange] else []) + Exchanges(steps[1..])
  }

  /** The mentor log is append-only: after a run of requests for one token,
      the log is the old log followed by the new exchanges, in order, whatever
      plans were made in between. */
  lemma {:induction false} ConversationOnlyGrows(store: MentorStore, token: string, steps: seq<MentorStep>)
    ensures MentorOf(Replay(store, token, steps), token).conversations
         == MentorOf(store, token).conversations + Exchanges(steps)
    decreases |steps|
  {
    if steps != [] {
      var next := ApplyStep(store, token, steps[0]);
      ConversationOnlyGrows(next, token, steps[1..]);
      var h := if steps[0].Talk? then [steps[0].exchange] else [];
      assert MentorOf(next, token).conversations == MentorOf(store, token).conversations + h;
      assert MentorOf(store, token).conversations + h + Exchanges(steps[1..])
          == MentorOf(store, token).conversations + (h + Exchanges(steps[1..]));
    }
  }

  // ------------------------------------------------------------ context line

  /** The sentence `/generateMentorResponse` adds to the system prompt about
      a product. */
  function ProductSentence(p: Product): string {
    "\n\nContext: The user has created a digital product titled \"" + p.productTitle
      + "\" in the " + p.niche + " niche."
  }

  /** `contextInfo`: empty without products, and otherwise the sentence about
      the current (last) product. */
  function ContextInfo(history: seq<Product>): (r: string)
    ensures r == [] <==> history == []
    ensures history != [] ==> r == ProductSentence(history[|history| - 1])
  {
    if history == [] then [] else ProductSentence(history[|history| - 1])
  }
}
