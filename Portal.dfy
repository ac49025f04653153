/** The one fixed host every relative link of the portal is resolved against. */
module Portal {

  /** Base URL prepended to every `href` taken from a portal page. */
  const Prefix: string := "https://sauce.zdv.uni-mainz.de"

  /** The base URL is 30 characters long. */
  lemma PrefixLength()
    ensures |Prefix| == 30
  {
  }
}
