/** JSON documents as the server stores them, and what reading a stored
    document gives when the file is missing or does not parse. Parsing itself
    is not modelled: a decoder is an `Option`-valued function supplied by the
    caller. */
module Json {
  import opened Wrappers
  import Text

  /** A JSON value. Numbers are kept as their literal text, since nothing in
      the server computes with them. */
  datatype Json =
    | JNull
    | JBool(b: bool)
    | JNumber(literal: string)
    | JString(s: string)
    | JArray(items: seq<Json>)
    | JObject(members: map<string, Json>)

  const TokensFileName := "tokens.json"

  /** `readJSON` in routes/admin.js. `parsed` is what reading and parsing the
      file at `path` produced, `None` when either failed; a failure reads as an
      empty list when the path mentions tokens.json, and as an empty object
      otherwise. */
  function AdminReadJson(path: string, parsed: Option<Json>): (r: Json)
    ensures parsed.Some? ==> r == parsed.value
  {
    match parsed
    case Some(doc) => doc
    case None => if Text.Contains(path, TokensFileName) then JArray([]) else JObject(map[])
  }

  /** `readJSON` in routes/openai.js: a failed read or parse is an empty object. */
  function ReadJson(parsed: Option<Json>): (r: Json)
    ensures parsed.Some? ==> r == parsed.value
    ensures parsed.None? ==> r == JObject(map[])
  {
    parsed.GetOr(JObject(map[]))
  }

  /** The tokens file, wherever it lives, reads as an empty list on failure. */
  lemma TokensFileDefaultsToList(dir: string)
    ensures AdminReadJson(dir + TokensFileName, None) == JArray([])
  {
    Text.ContainsSuffix(dir, TokensFileName);
  }

  /** On failure the admin reader yields an empty list exactly for paths that
      mention tokens.json, and an empty object for every other path. */
  lemma AdminDefaultByPath(path: string)
    ensures AdminReadJson(path, None) == JArray([]) <==> exists i: nat :: Text.OccursAt(path, TokensFileName, i)
    ensures AdminReadJson(path, None) == JObject(map[]) <==> !exists i: nat :: Text.OccursAt(path, TokensFileName, i)
  {
    Text.ContainsAt(path, TokensFileName);
  }
}
