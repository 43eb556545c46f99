/**
 The shared-secret suffix both versions of `get_json` put on the URL string
 they hand to `urlopen`.
 */
module Auth {
  import opened Base
  import opened Text

  const AuthParameter := "&auth="

  /** Python truthiness of the auth setting: `None` and `""` are false. */
  predicate Truthy(auth: Option<string>) {
    auth.Some? && auth.value != ""
  }

  /** The URL string `get_json` passes to `urlopen` for `url` under the auth setting `auth`. */
  function WithAuth(url: string, auth: Option<string>): (r: string)
    ensures StartsWith(r, url)
    ensures r == url <==> !Truthy(auth)
    ensures Truthy(auth) ==> r[|url|..] == AuthParameter + auth.value
  {
    if Truthy(auth) then url + AuthParameter + auth.value else url
  }

  /** Reads the auth value back off a suffixed URL string, given the URL it was built from. */
  function AuthOf(url: string, fetched: string): Option<string>
  {
    var marked := url + AuthParameter;
    if StartsWith(fetched, marked) && |fetched| > |marked| then Some(fetched[|marked|..])
    else None
  }

  /**
   The suffix loses nothing: a truthy setting is read back exactly, and every
   falsy setting (missing or empty) leaves no trace on the URL.
   */
  lemma AuthRoundTrip(url: string, auth: Option<string>)
    ensures AuthOf(url, WithAuth(url, auth)) == (if Truthy(auth) then auth else None)
  {
    var marked := url + AuthParameter;
    var fetched := WithAuth(url, auth);
    if Truthy(auth) {
      assert fetched == marked + auth.value;
      assert fetched[..|marked|] == marked;
      assert fetched[|marked|..] == auth.value;
    } else {
      assert |fetched| < |marked|;
    }
  }

  /** Two settings give the same URL exactly when both are falsy or both are the same string. */
  lemma WithAuthInjective(url: string, a: Option<string>, b: Option<string>)
    ensures WithAuth(url, a) == WithAuth(url, b) <==>
              (!Truthy(a) && !Truthy(b)) || (Truthy(a) && Truthy(b) && a.value == b.value)
  {
    AuthRoundTrip(url, a);
    AuthRoundTrip(url, b);
  }

  /** The suffix puts no line break into a URL that had none, unless the auth value holds one. */
  lemma SuffixAddsNoNewline(url: string, auth: Option<string>)
    requires '\n' !in url && (auth.Some? ==> '\n' !in auth.value)
    ensures '\n' !in WithAuth(url, auth)
  {
    if Truthy(auth) {
      assert WithAuth(url, auth) == url + (AuthParameter + auth.value);
    }
  }
}
