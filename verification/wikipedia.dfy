/** The MediaWiki extracts query that `Tools.wikipedia` scrapes for a page title. */
module WikipediaApi {

  const ApiHost: string := ".wikipedia.org/w/api.php"
  const ExtractsQuery: string := "?action=query&prop=extracts&explaintext&format=json&titles="

  /** The query URL for `page` on the `lang` edition; the title is inserted as given, without percent-encoding. */
  function WikipediaUrl(lang: string, page: string): (u: string)
    ensures |u| == 8 + |lang| + |ApiHost| + |ExtractsQuery| + |page|
    ensures u[..8] == "https://"
    ensures u[8..8 + |lang|] == lang
    ensures u[8 + |lang|..8 + |lang| + |ApiHost|] == ApiHost
    ensures u[|u| - |page|..] == page
    ensures u[|u| - |page| - |ExtractsQuery|..|u| - |page|] == ExtractsQuery
  {
    "https://" + lang + ApiHost + ExtractsQuery + page
  }

  /** Distinct titles give distinct URLs on one edition, so each title is fetched separately. */
  lemma WikipediaUrlInjective(lang: string, p: string, q: string)
    requires WikipediaUrl(lang, p) == WikipediaUrl(lang, q)
    ensures p == q
  {
    var u := WikipediaUrl(lang, p);
    assert |p| == |q|;
    assert p == u[|u| - |p|..] == q;
  }

  /** The URLs of a list of titles, in the same order. */
  function WikipediaUrls(lang: string, pages: seq<string>): (us: seq<string>)
    ensures |us| == |pages|
    ensures forall i :: 0 <= i < |pages| ==> us[i] == WikipediaUrl(lang, pages[i])
  {
    seq(|pages|, i requires 0 <= i < |pages| => WikipediaUrl(lang, pages[i]))
  }
}
