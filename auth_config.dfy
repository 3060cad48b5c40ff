/**
 * The two authentication callbacks: `redirect`, which keeps a url that
 * starts with the site's base url and otherwise sends the user to the base
 * url, and `signIn`, which always admits.
 */
module AuthConfig {

  /** `url.startsWith(baseUrl) ? url : baseUrl`. */
  function Redirect(url: string, baseUrl: string): (r: string)
    ensures baseUrl <= r
    ensures baseUrl <= url ==> r == url
    ensures !(baseUrl <= url) ==> r == baseUrl
  {
    if baseUrl <= url then url else baseUrl
  }

  /** Redirecting a redirect target changes nothing. */
  lemma RedirectIdempotent(url: string, baseUrl: string)
    ensures Redirect(Redirect(url, baseUrl), baseUrl) == Redirect(url, baseUrl)
  {
  }

  /** Any suffix of the base url is kept. */
  lemma RedirectKeepsSuffix(baseUrl: string, suffix: string)
    ensures Redirect(baseUrl + suffix, baseUrl) == baseUrl + suffix
  {
    assert baseUrl <= baseUrl + suffix;
  }

  /** The callback asks for no check: sign-in goes ahead with or without an e-mail. */
  function SignIn(email: string): (admitted: bool)
    ensures admitted
  {
    true
  }

  /**
   * `url` stays on the site of `baseUrl`: it is the base url itself, or the
   * base url followed by a path, a query or a fragment.
   */
  predicate SameOrigin(url: string, baseUrl: string) {
    url == baseUrl || (baseUrl <= url && |url| > |baseUrl| && url[|baseUrl|] in "/?#")
  }

  /**
   * The prefix test admits a different host that merely begins with the
   * base url's text.
   */
  lemma PrefixAdmitsOtherHost()
    ensures var baseUrl := "https://tier.example";
            var url := "https://tier.example.evil.test/";
            Redirect(url, baseUrl) == url && !SameOrigin(url, baseUrl)
  {
    var baseUrl := "https://tier.example";
    var url := "https://tier.example.evil.test/";
    assert url == baseUrl + ".evil.test/";
    assert url[|baseUrl|] == '.';
  }

  /** The redirect guard as intended: only same-site urls are kept. */
  function RedirectSameOrigin(url: string, baseUrl: string): (r: string)
    ensures SameOrigin(r, baseUrl)
    ensures SameOrigin(url, baseUrl) ==> r == url
    ensures !SameOrigin(url, baseUrl) ==> r == baseUrl
    ensures SameOrigin(url, baseUrl) ==> r == Redirect(url, baseUrl)
  {
    if SameOrigin(url, baseUrl) then url else baseUrl
  }

  lemma RedirectSameOriginIdempotent(url: string, baseUrl: string)
    ensures RedirectSameOrigin(RedirectSameOrigin(url, baseUrl), baseUrl) == RedirectSameOrigin(url, baseUrl)
  {
  }
}
