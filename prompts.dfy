/** The system prompts of the generation handlers (routes/openai.js): the
    administrator's prompts file may override each one; an absent or empty
    entry falls back to the built-in default. */
module Prompts {

  /** The prompts file: prompt name to prompt text. */
  type PromptMap = map<string, string>

  /** `prompts[key] || fallback`: the stored prompt when there is one and it
      is not the empty string, which JavaScript treats as false. */
  function SystemPrompt(prompts: PromptMap, key: string, fallback: string): (r: string)
    ensures key in prompts && prompts[key] != [] ==> r == prompts[key]
    ensures key !in prompts || prompts[key] == [] ==> r == fallback
  {
    if key in prompts && prompts[key] != [] then prompts[key] else fallback
  }

  const NichesKey := "niches"
  const TocKey := "toc"
  const ChaptersKey := "chapters"
  const GhostwriterKey := "ghostwriter"
  const MentorKey := "mentor"

  const NichesDefault := "You are an expert in identifying profitable digital product niches."
  const TocDefault := "You are an expert content strategist creating comprehensive digital products."
  const ChaptersDefault := "You are an expert writer creating engaging, valuable content."
  const GhostwriterDefault := "You are an expert copywriter and marketing strategist."
  /** The mentor default of `/generateMentorResponse`. */
  const MentorDefault := "You are an experienced digital business mentor and coach who helps entrepreneurs succeed."
  /** The mentor default of `/generateMentorPlan`, which is shorter. */
  const PlanDefault := "You are an experienced digital business mentor and coach."
}
