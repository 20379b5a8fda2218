/**
 * What `scrape` returns once the body is fetched: the raw body, or the
 * text extractor's output, or the raw body again when the extractor
 * produced nothing.
 */
module Selection {

  /**
   * Python's `\s` on a str pattern: the characters for which `str.isspace`
   * holds (tab to carriage return, the information separators 0x1C-0x1F,
   * space, NEL, no-break space and the Unicode space separators).
   */
  predicate IsSpace(c: char)
  {
    || ('\t' <= c <= '\r')
    || ('\U{1C}' <= c <= ' ')
    || c == '\U{85}' || c == '\U{A0}' || c == '\U{1680}'
    || ('\U{2000}' <= c <= '\U{200A}')
    || c == '\U{2028}' || c == '\U{2029}' || c == '\U{202F}' || c == '\U{205F}' || c == '\U{3000}'
  }

  /** The length of the longest all-whitespace prefix of `s`. */
  function LeadingSpaces(s: string): (k: nat)
    ensures k <= |s|
    ensures forall i :: 0 <= i < k ==> IsSpace(s[i])
    ensures k < |s| ==> !IsSpace(s[k])
  {
    if s == [] || !IsSpace(s[0]) then 0 else 1 + LeadingSpaces(s[1..])
  }

  /**
   * `re.match(r"^\s*<\?xml\s", body)`: since `<` is not whitespace, the
   * greedy `\s*` can only end where the whitespace prefix ends.
   */
  predicate XmlDeclared(body: string)
  {
    var k := LeadingSpaces(body);
    k + 6 <= |body| && body[k..k + 5] == "<?xml" && IsSpace(body[k + 5])
  }

  /** The pattern matches with `\s*` consuming exactly the first `k` characters. */
  ghost predicate MatchesAt(body: string, k: nat)
  {
    && k + 6 <= |body|
    && (forall i :: 0 <= i < k ==> IsSpace(body[i]))
    && body[k..k + 5] == "<?xml"
    && IsSpace(body[k + 5])
  }

  /** `XmlDeclared` accepts exactly the strings the regular expression matches. */
  lemma XmlDeclaredIsPatternMatch(body: string)
    ensures XmlDeclared(body) <==> exists k :: MatchesAt(body, k)
  {
    var m := LeadingSpaces(body);
    if XmlDeclared(body) {
      assert MatchesAt(body, m);
    }
    if k: nat :| MatchesAt(body, k) {
      assert body[k] == body[k..k + 5][0] == '<';
      assert !IsSpace(body[k]);
      assert k <= m ==> k == m;
      assert m <= k ==> !IsSpace(body[m]);
      assert k == m;
    }
  }

  /**
   * The `min_summary_size` rule: `size_check and len(html) <= size_check`.
   * A threshold of 0 disables it, a negative one never fires, and the
   * bound is inclusive.
   */
  predicate SizeForcesRaw(body: string, minSummarySize: int)
  {
    minSummarySize != 0 && |body| <= minSummarySize
  }

  lemma SizeRule(body: string, minSummarySize: int)
    ensures minSummarySize <= 0 ==> !SizeForcesRaw(body, minSummarySize)
    ensures minSummarySize > 0 ==> (SizeForcesRaw(body, minSummarySize) <==> |body| <= minSummarySize)
    ensures minSummarySize > 0 && |body| == minSummarySize ==> SizeForcesRaw(body, minSummarySize)
  {
  }

  /** The body is returned unchanged whatever `return_html` was: JSON, an XML declaration, or a small body. */
  predicate ForcedRaw(body: string, isJson: bool, minSummarySize: int)
  {
    isJson || XmlDeclared(body) || SizeForcesRaw(body, minSummarySize)
  }

  /**
   * The value `scrape` returns for a fetched `body`: the body itself when
   * raw output was asked for or forced, else the extractor's text, else
   * (when the extractor returned nothing) the body.
   */
  function Output(body: string, returnHtml: bool, isJson: bool, minSummarySize: int, toText: string -> string): (r: string)
    ensures isJson ==> r == body
    ensures XmlDeclared(body) ==> r == body
    ensures minSummarySize != 0 && |body| <= minSummarySize ==> r == body
    ensures returnHtml ==> r == body
    ensures !returnHtml && !ForcedRaw(body, isJson, minSummarySize) && toText(body) != "" ==> r == toText(body)
    ensures toText(body) == "" ==> r == body
    ensures r == body || r == toText(body)
    ensures r == "" ==> body == ""
  {
    if returnHtml || ForcedRaw(body, isJson, minSummarySize) then body
    else
      var content := toText(body);
      if content != "" then content else body
  }
}
