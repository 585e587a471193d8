# Token-gated content generator: sessions, product history and fallback parsers

This project models the server side of a content generator whose users unlock it with access tokens. There are three parts.

- **The token registry.** This is the tokens file: an ordered list of records `{token, active, usedByDevice, lastUsed}`. It is used by `/verifyToken`, which checks a token and binds it to the first device that uses it. It is also used by the administrator's create, activate and delete operations. The values live in `tokens.dfy`, and the stored list with one atomic method per request handler lives in `registry.dfy`.
- **Product history and the stores derived from it** (`products.dfy`, `derived.dfy`, `prompts.dfy`, `store.dfy`):
  - for each token, the context file keeps an append-only history of products, and the last product is the current one;
  - the ghostwriter file keeps, per token, the latest generated marketing asset of each type;
  - the mentor file keeps, per token, an append-only conversation log and the latest 90-day plan;
  - `ContentStore` holds the four JSON files (prompts, context, ghostwriter, mentor) as fields, with one method per generation handler.
- **Fallback parsers** (`fallback.dfy`, over the JavaScript string operations in `text.dfy`). When the generator's reply to a niche or table-of-contents request is not JSON, the reply is cut into lines. Blank lines are dropped, the list is capped at 10 niches or 15 chapters, each line loses a leading `digits "."` and the white space after it, and each line becomes one entry.

The text generator, `JSON.parse` and the clock are inputs:
- the generator's reply is an `Option<string>` parameter, where `None` means the call failed;
- each handler returns the request it would have sent, as a system prompt, an `Instruction` and a temperature;
- decoding is a `string -> Option<Json>` parameter;
- time stamps are opaque `now` strings.

## Model

| member | source | states |
|---|---|---|
| Tokens.Find | routes/tokens.js:34 | `tokens.find`: the position of the first record holding the token, none before it; `None` exactly when no record holds it |
| Tokens.VerifyAnswer | routes/tokens.js:26-52 | "Token is required" exactly for an empty token; "Invalid token" exactly for a non-empty token no record holds; "Token is inactive" exactly when the first record holding it is switched off; "in use on another device" exactly when that record is active and bound to a different device; valid exactly when it is active and unbound or bound to this device, and then `isMaster` is the `MASTER-` prefix test |
| Tokens.AfterVerify | routes/tokens.js:33-50 | the list written back has the same length, and it is the old list whenever verification fails |
| Tokens.IsMaster | routes/tokens.js:52 | `startsWith('MASTER-')`: the token is at least as long as `MASTER-` and begins with it |
| Tokens.MasterIffPrefixed | routes/tokens.js:52 | a token is a master token exactly when it is `MASTER-` followed by something |
| Tokens.InactiveBeforeDevice | routes/tokens.js:40-46 | an inactive token is reported inactive whatever device it is bound to |
| Tokens.VerifyChangesOnlyMatch | routes/tokens.js:33-50 | success changes only the matched record's `usedByDevice` (to the device) and `lastUsed` (to the time); length, order and all other records are kept |
| Tokens.FindAfterUpdate | routes/tokens.js:48-49 | changing a record's fields other than `token` does not move the first match |
| Tokens.VerifyIdempotent | routes/tokens.js:44-50 | verifying again from the bound device succeeds with the same answer, keeps the binding and only refreshes `lastUsed` |
| Tokens.BoundRefusesOtherDevices | routes/tokens.js:40-46 | a token bound to a device is refused to every other device: as in use when active, as inactive otherwise |
| Tokens.SecondDeviceRefused | routes/tokens.js:44-50 | after one device has verified a token, a different device gets "Token already in use on another device" |
| Tokens.NewRecord | routes/admin.js:57-62 | the appended record is `{token, active: true, usedByDevice: '', lastUsed: ''}` |
| Tokens.CreateResult | routes/admin.js:44-66 | refuses exactly an empty token, then exactly a token already listed; otherwise the list plus one fresh record at the end |
| Tokens.CreateKeepsUnique | routes/admin.js:53-62 | create keeps the token values unique |
| Tokens.CreatedTokenVerifies | routes/admin.js:57-62 | a freshly created token verifies from any device and is then bound to it |
| Tokens.SetActiveResult | routes/admin.js:68-82 | "Token not found" exactly when no record holds the token; otherwise an updated list |
| Tokens.SetActiveKeepsBinding | routes/admin.js:73-80 | setActive changes only `active` of the matched record; device binding and time stamp are kept, other records unchanged |
| Tokens.ReactivatedTokenStaysBound | routes/admin.js:79 | switching a bound token off and on again leaves it bound: its device is accepted, any other refused |
| Tokens.Without | routes/admin.js:88 | the filtered list is no longer, and no record in it holds the token |
| Tokens.WithoutMembers | routes/admin.js:88 | a record is in the filtered list exactly when it was in the list and holds another token: matches are removed, not replaced, and nothing new appears |
| Tokens.DeleteResult | routes/admin.js:84-92 | delete always writes, and the result holds no record with the token |
| Tokens.WithoutAppend | routes/admin.js:88 | the filter works piecewise on a concatenation, so the records kept stay in their order |
| Tokens.WithoutKeepsOthers | routes/admin.js:88 | every record holding another token survives the delete |
| Tokens.WithoutAbsent | routes/admin.js:87-91 | deleting an absent token leaves the list unchanged |
| Tokens.WithoutIdempotent | routes/admin.js:87-91 | deleting twice is deleting once |
| Registry.TokenRegistry.constructor | routes/tokens.js:13-20 | the stored list is the file's list, or empty when reading or parsing failed |
| Registry.TokenRegistry.Lookup | routes/tokens.js:34 | the scan from the front returns exactly `Find` |
| Registry.TokenRegistry.Verify | routes/tokens.js:26-59 | answers `VerifyAnswer` and leaves the list as `AfterVerify` |
| Registry.TokenRegistry.Create | routes/admin.js:44-66 | answers `CreateResult`; the list changes only when it is updated |
| Registry.TokenRegistry.SetActive | routes/admin.js:68-82 | answers `SetActiveResult`; the list changes only when it is updated |
| Registry.TokenRegistry.Delete | routes/admin.js:84-92 | the loop builds exactly `Without`, and the list becomes it |
| Registry.FirstMatch | routes/tokens.js:34 | a match with none before it is the one `find` returns |
| Json.AdminReadJson | routes/admin.js:16-23 | a parsed document is returned as it is |
| Json.AdminDefaultByPath | routes/admin.js:21 | on failure: an empty list exactly when the path contains `tokens.json`, an empty object exactly otherwise |
| Json.TokensFileDefaultsToList | routes/admin.js:12-21 | the tokens file, in whatever directory, reads as an empty list on failure |
| Json.ReadJson | routes/openai.js:17-24 | a parsed document is returned as it is; a failure gives an empty object |
| Text.Trim | routes/openai.js:72-73 | `trim`: the result has no white character at either end, and it is empty exactly when the line is blank, which is when the `filter` drops it |
| Text.TrimStart | routes/openai.js:73 | the `\s*` of the numbering pattern: a suffix of the input that does not start with a white character |
| Text.TrimEnd | routes/openai.js:73 | a prefix of the input that does not end with a white character |
| Text.TrimRemovesPadding | routes/openai.js:73 | trim removes white space around a trimmed core and gives exactly that core |
| Text.TrimIdempotent | routes/openai.js:73 | trimming twice is trimming once |
| Text.WhitePrefixTrimmed | routes/openai.js:73 | leading white space does not change what trim gives |
| Text.TrimAfterTrimStart | routes/openai.js:73 | stripping leading white space before trim changes nothing |
| Text.Split | routes/openai.js:72 | `split('\n')`: at least one piece, none containing a line break |
| Text.JoinSplit | routes/openai.js:72 | joining the pieces with line breaks gives back the reply |
| Text.SplitJoin | routes/openai.js:72 | splitting lines joined by line breaks gives back the lines |
| Text.Contains | routes/admin.js:21 | `includes`: true whenever the substring starts the string, and only when it is no longer than the string |
| Text.ContainsAt | routes/admin.js:21 | `includes` holds exactly when the substring occurs at some position |
| Text.Decimal | routes/openai.js:74 | a number in a template literal: decimal digits, with no leading zero except in `0` |
| Text.DecimalRoundTrip | routes/openai.js:74 | reading back the digits gives the number |
| Text.DecimalInjective | routes/openai.js:74 | different numbers render differently |
| Fallback.NonBlank | routes/openai.js:72 | the kept lines are no more than the input lines, and none of them is blank |
| Fallback.NonBlankAppend | routes/openai.js:72 | the filter works piecewise on a concatenation, so it keeps the input order |
| Fallback.NonBlankMembers | routes/openai.js:72 | a line is kept exactly when it is in the input and not blank: every blank line is dropped, and nothing is added or replaced |
| Fallback.NonBlankKeepsAll | routes/openai.js:72 | lines that are all non-blank are all kept |
| Fallback.Take | routes/openai.js:72 | `slice(0, cap)`: exactly `min(cap, n)` elements, the first ones |
| Fallback.LeadingDigits | routes/openai.js:73 | the length of the digit run at the start: all digits, followed by a non-digit or the end |
| Fallback.LeadingDigitsIs | routes/openai.js:73 | that length is the only one with those properties |
| Fallback.StripNumberingCutsFront | routes/openai.js:73 | `replace(/^\d+\.\s*/, '')` only removes a front part of the line, and changes only a line that starts with digits and a full stop |
| Fallback.TitleIsTrimmed | routes/openai.js:73 | the title (`replace(...).trim()`, also at line 104) is no longer than its line, has no white space at either end, and is empty exactly when the line is blank once its number is gone |
| Fallback.TitleOfNumbered | routes/openai.js:73 | a line `digits "." rest` gets the title `trim(rest)`: the number, the full stop and the white space go, and a second number further on stays |
| Fallback.TitleOfUnnumbered | routes/openai.js:73 | a line that does not start with digits and a full stop is only trimmed |
| Fallback.NicheFallback | routes/openai.js:72-75 | exactly `min(10, non-blank lines)` niches; niche `i` takes its title from the `i`-th non-blank line and is described as `Profitable niche opportunity` and the number `i + 1` |
| Fallback.NichesOf | routes/openai.js:72-75 | one niche per line, in order, numbered from 1 |
| Fallback.NicheDescriptionsDistinct | routes/openai.js:74 | the fallback niches have pairwise different descriptions |
| Fallback.ParseNiches | routes/openai.js:68-76 | a reply that decodes is used as decoded; exactly the others go through the fallback |
| Fallback.TocFallback | routes/openai.js:102-105 | exactly `min(15, non-blank lines)` chapters, numbered 1, 2, ... in line order, each titled from its line |
| Fallback.ChaptersOf | routes/openai.js:102-105 | one chapter per line, in order, numbered from 1 |
| Fallback.ParseToc | routes/openai.js:98-106 | a reply that decodes is used as decoded; exactly the others go through the fallback |
| Products.HistoryOf | routes/openai.js:109-111 | a token without a history reads as the empty history |
| Products.NewProduct | routes/openai.js:113-119 | the new product is titled `niche + " Guide"`, keeps the niche and the table of contents, and has no chapters |
| Products.AppendProduct | routes/openai.js:108-122 | the token's history grows by exactly the new product at the end; every other token's history is unchanged |
| Products.Current | routes/openai.js:146 | `userProducts[userProducts.length - 1]` (also at lines 171 and 268): defined only for a non-empty history, and a product of that history |
| Products.CurrentAfterAppend | routes/openai.js:121 | the product a table of contents has just appended is the current one |
| Products.AppendAllAccumulates | routes/openai.js:108-122 | histories are append-only: after many tables of contents, the history is the old one followed by the new products in order |
| Products.WriteChapter | routes/openai.js:144-151 | with a history, only the last product's `chapters[chapterNumber]` changes; earlier products, other keys and other tokens stay; with none, nothing changes |
| Products.ChapterGoesToNewestProduct | routes/openai.js:121-151 | after a new table of contents, a chapter goes into the new product and the older products keep theirs |
| Products.RewriteChapterOverwrites | routes/openai.js:147-150 | writing a chapter key twice keeps only the second write |
| Products.ChapterWritesCommute | routes/openai.js:147-150 | chapter writes under different keys do not disturb each other |
| Derived.ParseAssetType | routes/openai.js:179-193 | an accepted name is the name of its asset type; every other name is refused |
| Derived.ParseAssetName | routes/openai.js:179-193 | each of the four asset types is accepted under its own name |
| Derived.GhostOf | routes/openai.js:203-205 | a token without a record reads as an empty record |
| Derived.StoreAsset | routes/openai.js:202-209 | only the asset type's text, `productTitle` and `lastUpdated` of that token change; other asset types and tokens stay |
| Derived.StoreAssetTwice | routes/openai.js:206-208 | storing one asset type twice keeps only the newer text |
| Derived.MentorOf | routes/openai.js:241-243 | a token without a record reads as an empty conversation with no plan |
| Derived.AppendExchange | routes/openai.js:240-246 | exactly one exchange more, at the end of the log; the plan and other tokens stay |
| Derived.SetPlan | routes/openai.js:280-286 | the plan is replaced; the conversation log and other tokens stay |
| Derived.ConversationOnlyGrows | routes/openai.js:240-246 | however responses and plans interleave, the log is the old log followed by the new exchanges in order |
| Derived.ContextInfo | routes/openai.js:229-233 | the context sentence is present exactly when the history is non-empty, and it describes the last product |
| Prompts.SystemPrompt | routes/openai.js:59 | a stored, non-empty prompt overrides the default; a missing or empty one falls back to it |
| Store.ContentStore.constructor | routes/openai.js:17-24 | each file reads as its contents, or as an empty object on failure |
| Store.ContentStore.UpdatePrompts | routes/admin.js:99-103 | the prompt mapping is replaced as a whole by the one supplied |
| Store.ContentStore.GenerateNiches | routes/openai.js:56-82 | sends the niches prompt (override or default) at 0.7; the answer is the parsed niches, or an error when the call failed |
| Store.ContentStore.GenerateToc | routes/openai.js:84-128 | sends the toc prompt at 0.7; on a reply it appends `NewProduct` to the token's history and answers the table of contents and the product title; on failure nothing changes |
| Store.ContentStore.GenerateChapter | routes/openai.js:130-158 | sends the chapters prompt at 0.8; on a reply it performs `WriteChapter` and returns the text, also when there is no product |
| Store.ContentStore.GenerateGhostwriter | routes/openai.js:160-216 | no product: "No product found"; then an unknown asset type: "Invalid asset type"; neither asks the generator or writes; otherwise it sends the ghostwriter prompt with the current product and performs `StoreAsset` |
| Store.ContentStore.GenerateMentorResponse | routes/openai.js:218-255 | sends the mentor prompt followed by `ContextInfo` at 0.7, then appends the exchange |
| Store.ContentStore.GenerateMentorPlan | routes/openai.js:257-292 | no product: "No product found" without a call or a write; otherwise it sends the shorter mentor default (or the override) with the current product at 0.6 and performs `SetPlan` |

The system prompts of the other handlers are chosen by `Prompts.SystemPrompt` with their own keys and defaults: `toc` (routes/openai.js:89), `chapters` (135), `ghostwriter` (174), and `mentor` (225 and 271, each with its own default).

## Left out

- HTTP, request parsing and status codes. Each handler's answer and error are a result datatype.
- In routes/tokens.js and routes/admin.js a request field that is missing is modelled as the empty string: both are falsy in the checks there. The handlers of routes/openai.js take `token`, `niche`, `chapterNumber` and the other fields as given strings. A missing field there is not modelled: JavaScript would turn it into the text `undefined` (a product titled "undefined Guide", entries filed under the key `"undefined"`, a chapter stored under `"undefined"`).
- Tokens that name a member of `Object.prototype`, such as `constructor` or `__proto__`. The context, ghostwriter and mentor files are plain JavaScript objects, so such a token finds an inherited member where the model finds no entry. The source then fails with an error (routes/openai.js:147, 180, 230) or loses the record when the file is written (`__proto__`, routes/openai.js:110 and 121). The model treats every token as an ordinary key of a map.
- The constructors take each file's contents already decoded into the store's types, with the default applied: `[]` for the tokens file and `{}` for the others. `Json.AdminReadJson` and `Json.ReadJson` state the same defaults on the raw JSON document.
- File reads and writes, including a write that fails. Each file is a field of an in-memory store. A read that fails is modelled only as the initial value when the store is built. A file that breaks between two requests is not modelled.
- Concurrency. Two overlapping requests to the same file can lose a write; here every handler is one atomic step.
- The text generator (`callOpenAI`, routes/openai.js:30-54) is a network call. Its answer is a parameter, and the model records the request it would receive. The wording of each user prompt is abstracted to an `Instruction` with the values it interpolates.
- `JSON.parse` and `JSON.stringify`. Decoding is a parameter returning `Option`.
- JSON values whose shape differs from what the handlers write:
  - a context entry that is not an array;
  - a prompt that is not a string;
  - a mentor record without `conversations`;
  - a request body that is not an object;
  - an `active` that is not a boolean.

  The store keeps only the shapes the handlers themselves write.
- JavaScript strings are sequences of UTF-16 code units; here they are sequences of Unicode characters. The white space set of `trim` and `\s` is listed character by character. Nothing in the modelled code depends on surrogate pairs.
- `chapterNumber` is used as an object key, so JavaScript turns it into a string. The model takes that string.
- The administrator password check (routes/admin.js:29-37). It compares against a configured secret.
- `GET /tokens`, `GET /prompts` and `GET /products` (routes/admin.js:39-42, 94-97, 105-108). They only return a file.
- public/script.js and server.js. These are the browser client and the server wiring.
- Tokens.AfterVerify: its own contract states only the length and the failure case. The success case is stated by `Tokens.VerifyChangesOnlyMatch`.
- Fallback.NonBlank: its own contract does not state that the kept lines come from the input. Membership is stated by `NonBlankMembers`, and order by `NonBlankAppend`.
