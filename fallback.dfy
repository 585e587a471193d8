/** What `/generateNiches` and `/generateTOC` make of the generator's reply:
    the reply decoded as JSON when it decodes, and otherwise a list built
    line by line from the raw text (routes/openai.js). */
module Fallback {
  import opened Wrappers
  import opened Text
  import opened Json

  /** No more than this many fallback niches are kept. */
  const NicheCap := 10
  /** No more than this many fallback chapters are kept. */
  const TocCap := 15

  /** `response.split('\n')`. */
  function Lines(response: string): seq<string> {
    Split(response, '\n')
  }

  /** `.filter(line => line.trim())`: the lines that are not blank, in order.
      A trimmed line is falsy exactly when it is empty, which is what `Blank`
      means (see `Trim`). */
  function NonBlank(lines: seq<string>): (r: seq<string>)
    ensures |r| <= |lines|
    ensures forall i :: 0 <= i < |r| ==> !Blank(r[i])
  {
    if lines == [] then []
    else (if !Blank(lines[0]) then [lines[0]] else []) + NonBlank(lines[1..])
  }

  /** Filtering works piecewise on a concatenation, so it keeps the input order. */
  lemma {:induction false} NonBlankAppend(a: seq<string>, b: seq<string>)
    ensures NonBlank(a + b) == NonBlank(a) + NonBlank(b)
  {
    if a != [] {
      var h := if !Blank(a[0]) then [a[0]] else [];
      assert (a + b)[0] == a[0];
      assert (a + b)[1..] == a[1..] + b;
      assert NonBlank(a + b) == h + NonBlank(a[1..] + b);
      NonBlankAppend(a[1..], b);
      assert h + (NonBlank(a[1..]) + NonBlank(b)) == (h + NonBlank(a[1..])) + NonBlank(b);
    } else {
      assert a + b == b;
    }
  }

  /** The filter keeps a line exactly when it was in the input and is not
      blank: nothing is added or replaced, and every blank line goes. */
  lemma {:induction false} NonBlankMembers(lines: seq<string>, line: string)
    ensures line in NonBlank(lines) <==> line in lines && !Blank(line)
  {
    if lines != [] {
      NonBlankMembers(lines[1..], line);
      assert lines == [lines[0]] + lines[1..];
    }
  }

  /** Lines that are all non-blank are all kept. */
  lemma {:induction false} NonBlankKeepsAll(lines: seq<string>)
    requires forall i :: 0 <= i < |lines| ==> !Blank(lines[i])
    ensures NonBlank(lines) == lines
  {
    if lines != [] {
      NonBlankKeepsAll(lines[1..]);
    }
  }

  /** `.slice(0, cap)`: the first `cap` elements, or all of them when there are fewer. */
  function Take<T>(s: seq<T>, cap: nat): (r: seq<T>)
    ensures |r| == Min(cap, |s|)
    ensures forall i :: 0 <= i < |r| ==> r[i] == s[i]
  {
    if |s| <= cap then s else s[..cap]
  }

  /** The lines a fallback list is built from. */
  function FallbackLines(response: string, cap: nat): seq<string> {
    Take(NonBlank(Lines(response)), cap)
  }

  /** The length of the run of digits that starts `s`. */
  function LeadingDigits(s: string): (k: nat)
    ensures k <= |s|
    ensures forall i :: 0 <= i < k ==> IsDigit(s[i])
    ensures k < |s| ==> !IsDigit(s[k])
  {
    if |s| > 0 && IsDigit(s[0]) then 1 + LeadingDigits(s[1..]) else 0
  }

  // The regular-expression replacement `line.replace(/^\d+\.\s*/, '')`: drop
  // one leading run of digits followed by a full stop, together with the
  // white space after it. A line that does not start that way is left alone.
  function StripNumbering(line: string): string {
    var k := LeadingDigits(line);
    if 0 < k < |line| && line[k] == '.' then
      TrimStart(line[k + 1..])
    else line
  }

  /** Stripping the number only ever removes a front part of the line, and
      only from a line that starts with digits and a full stop. */
  lemma StripNumberingCutsFront(line: string)
    ensures |StripNumbering(line)| <= |line|
    ensures StripNumbering(line) == line[|line| - |StripNumbering(line)|..]
    ensures StripNumbering(line) != line ==> Numbered(line)
  {
    var k := LeadingDigits(line);
    if 0 < k < |line| && line[k] == '.' {
      assert line[k + 1..][|line[k + 1..]| - |TrimStart(line[k + 1..])|..] == line[|line| - |TrimStart(line[k + 1..])|..];
    }
  }

  /** The title a fallback entry takes from its line. */
  function Title(line: string): string {
    Trim(StripNumbering(line))
  }

  /** A title is no longer than its line, has no white space at either end,
      and is empty exactly when the line is blank once its number is gone. */
  lemma TitleIsTrimmed(line: string)
    ensures |Title(line)| <= |line| && IsTrimmed(Title(line))
    ensures Title(line) == [] <==> Blank(StripNumbering(line))
  {
  }

  /** `line` starts with digits and then a full stop. */
  ghost predicate Numbered(line: string) {
    exists k :: 0 < k < |line| && (forall i :: 0 <= i < k ==> IsDigit(line[i])) && line[k] == '.'
  }

  /** A numbered line loses its number, the full stop and the surrounding white
      space, and only that: a second number further on stays. */
  lemma {:induction false} TitleOfNumbered(digits: string, rest: string)
    requires |digits| > 0 && AllDigits(digits)
    ensures Title(digits + "." + rest) == Trim(rest)
  {
    var line := digits + "." + rest;
    assert line[..|digits|] == digits;
    assert line[|digits|] == '.';
    LeadingDigitsIs(line, |digits|);
    assert line[|digits| + 1..] == rest;
    TrimAfterTrimStart(rest);
  }

  /** A line without a number in front is only trimmed. */
  lemma TitleOfUnnumbered(line: string)
    requires !Numbered(line)
    ensures Title(line) == Trim(line)
  {
  }

  /** `LeadingDigits` is the only length with its two properties. */
  lemma {:induction false} LeadingDigitsIs(s: string, k: nat)
    requires k <= |s| && (forall i :: 0 <= i < k ==> IsDigit(s[i])) && (k < |s| ==> !IsDigit(s[k]))
    ensures LeadingDigits(s) == k
  {
    if k > 0 {
      assert IsDigit(s[0]);
      LeadingDigitsIs(s[1..], k - 1);
    }
  }

  // ------------------------------------------------------------ niches

  datatype Niche = Niche(title: string, description: string)

  /** The niches `/generateNiches` returns: the decoded JSON as it is, or the
      fallback list. */
  datatype NicheList = DecodedNiches(json: Json) | FallbackNiches(entries: seq<Niche>)

  /** The placeholder description of the `n`-th fallback niche. */
  function NicheDescription(n: nat): string {
    "Profitable niche opportunity " + Decimal(n)
  }

  /** The fallback niches: one per non-blank line, at most ten, in the order
      of the lines; entry `i` takes its title from the `i`-th non-blank line
      and is described as opportunity `i + 1`. */
  function NicheFallback(response: string): (r: seq<Niche>)
    ensures |r| == Min(NicheCap, |NonBlank(Lines(response))|)
    ensures forall i :: 0 <= i < |r| ==>
      r[i] == Niche(Title(NonBlank(Lines(response))[i]), NicheDescription(i + 1))
  {
    NichesOf(FallbackLines(response, NicheCap))
  }

  function NicheEntry(line: string, n: nat): Niche {
    Niche(Title(line), NicheDescription(n))
  }

  /** One niche per line, in order, the `i`-th described as opportunity `i + 1`. */
  function NichesOf(lines: seq<string>): (r: seq<Niche>)
    ensures |r| == |lines|
    ensures forall i :: 0 <= i < |r| ==> r[i] == NicheEntry(lines[i], i + 1)
  {
    seq(|lines|, i requires 0 <= i < |lines| => NicheEntry(lines[i], i + 1))
  }

  /** The fallback niches have pairwise different descriptions. */
  lemma NicheDescriptionsDistinct(response: string, i: nat, j: nat)
    requires i < j < |NicheFallback(response)|
    ensures NicheFallback(response)[i].description != NicheFallback(response)[j].description
  {
    var pre := "Profitable niche opportunity ";
    DecimalInjective(i + 1, j + 1);
    assert (pre + Decimal(i + 1))[|pre|..] == Decimal(i + 1);
    assert (pre + Decimal(j + 1))[|pre|..] == Decimal(j + 1);
  }

  /** The parse step of `/generateNiches`: a reply that decodes is used as
      decoded; any other reply goes through the fallback. */
  function ParseNiches(decode: string -> Option<Json>, response: string): (r: NicheList)
    ensures r.DecodedNiches? <==> decode(response).Some?
    ensures r.DecodedNiches? ==> r.json == decode(response).value
    ensures r.FallbackNiches? ==> r.entries == NicheFallback(response)
  {
    match decode(response)
    case Some(json) => DecodedNiches(json)
    case None => FallbackNiches(NicheFallback(response))
  }

  // ------------------------------------------------------------ table of contents

  datatype TocEntry = TocEntry(chapter: nat, title: string)

  /** The table of contents `/generateTOC` keeps: the decoded JSON as it is,
      or the fallback list. */
  datatype TableOfContents = DecodedToc(json: Json) | FallbackToc(entries: seq<TocEntry>)

  /** The fallback table of contents: one chapter per non-blank line, at most
      fifteen, numbered 1, 2, ... in the order of the lines. */
  function TocFallback(response: string): (r: seq<TocEntry>)
    ensures |r| == Min(TocCap, |NonBlank(Lines(response))|)
    ensures forall i :: 0 <= i < |r| ==>
      r[i] == TocEntry(i + 1, Title(NonBlank(Lines(response))[i]))
  {
    ChaptersOf(FallbackLines(response, TocCap))
  }

  /** One chapter per line, in order, numbered from 1. */
  function ChaptersOf(lines: seq<string>): (r: seq<TocEntry>)
    ensures |r| == |lines|
    ensures forall i :: 0 <= i < |r| ==> r[i] == TocEntry(i + 1, Title(lines[i]))
  {
    seq(|lines|, i requires 0 <= i < |lines| => TocEntry(i + 1, Title(lines[i])))
  }

  /** The parse step of `/generateTOC`. */
  function ParseToc(decode: string -> Option<Json>, response: string): (r: TableOfContents)
    ensures r.DecodedToc? <==> decode(response).Some?
    ensures r.DecodedToc? ==> r.json == decode(response).value
    ensures r.FallbackToc? ==> r.entries == TocFallback(response)
  {
    match decode(response)
    case Some(json) => DecodedToc(json)
    case None => FallbackToc(TocFallback(response))
  }
}
