/** `PreSiteMeshFilter.doFilter`: chooses the "skin" cookie from the
    request's User-Agent header, then passes the request down the chain.

    The servlet request, response and chain are not modelled; what the filter
    does to them is recorded as a trace of `Effect`s. */
module PreSiteMeshFilter {
  import opened JavaLang
  import opened Text

  datatype Cookie = Cookie(name: string, value: string)

  /** What the filter does to the outside world, in order. */
  datatype Effect =
    | ChangeCookie(cookie: Cookie)   // Servlets.changeCookie(name, value, request, response)
    | ContinueChain                  // chain.doFilter(request, response)

  /** The tokens that mark a lower-cased User-Agent as a mobile device. */
  const MobileTokens: seq<string> := ["android", "phone", "pad"]

  /** The lower-cased header holds one of the mobile tokens. */
  ghost predicate IsMobileAgent(header: string) {
    exists k :: 0 <= k < |MobileTokens| && Occurs(ToLowerCase(header), MobileTokens[k])
  }

  /** The cookie `doFilter` writes for a User-Agent header: "skin" is
      "mobile" for a header that mentions one of the tokens in any letter
      case and "content" otherwise. A missing header is dereferenced before
      any test, so it throws a NullPointerException. */
  function SkinCookie(userAgent: Nullable<string>): (r: Outcome<Cookie>)
    ensures r.Threw? <==> userAgent.Null?
    ensures r.Threw? ==> r.exception == NullPointerException
    ensures r.Returned? ==> r.value.name == "skin" && r.value.value in {"mobile", "content"}
  {
    match userAgent
    case Null => Threw(NullPointerException)
    case NonNull(ua) =>
      var header := ToLowerCase(ua);
      if IndexOf(header, "android") != -1 || IndexOf(header, "phone") != -1 || IndexOf(header, "pad") != -1
      then Returned(Cookie("skin", "mobile"))
      else Returned(Cookie("skin", "content"))
  }

  /** The skin is "mobile" exactly when the lower-cased header holds one of
      the tokens, and "content" exactly when it holds none. */
  lemma MobileIffToken(ua: string)
    ensures SkinCookie(NonNull(ua)) == Returned(Cookie("skin", "mobile")) <==> IsMobileAgent(ua)
    ensures SkinCookie(NonNull(ua)) == Returned(Cookie("skin", "content")) <==> !IsMobileAgent(ua)
  {
    var header := ToLowerCase(ua);
    if IsMobileAgent(ua) {
      var k :| 0 <= k < |MobileTokens| && Occurs(header, MobileTokens[k]);
      assert k == 0 || k == 1 || k == 2;
    }
    if Occurs(header, "android") {
      assert Occurs(header, MobileTokens[0]);
    } else if Occurs(header, "phone") {
      assert Occurs(header, MobileTokens[1]);
    } else if Occurs(header, "pad") {
      assert Occurs(header, MobileTokens[2]);
    }
  }

  /** The cookies a trace writes, in order. */
  function CookiesWritten(effects: seq<Effect>): seq<Cookie> {
    if effects == [] then []
    else (if effects[0].ChangeCookie? then [effects[0].cookie] else []) + CookiesWritten(effects[1..])
  }

  /** The cookies of two traces run one after the other are those of the
      first followed by those of the second. */
  lemma {:induction false} CookiesWrittenAppend(a: seq<Effect>, b: seq<Effect>)
    ensures CookiesWritten(a + b) == CookiesWritten(a) + CookiesWritten(b)
  {
    if a == [] {
      assert a + b == b;
    } else {
      assert (a + b)[0] == a[0] && (a + b)[1..] == a[1..] + b;
      CookiesWrittenAppend(a[1..], b);
    }
  }

  /** `doFilter`: write the skin cookie, then continue down the chain. A
      missing header throws before either happens. `Servlets.changeCookie`
      and `chain.doFilter` are taken to return normally. */
  function DoFilter(userAgent: Nullable<string>): (r: Outcome<seq<Effect>>)
    ensures r.Threw? <==> userAgent.Null?
    ensures r.Returned? ==>
      && CookiesWritten(r.value) == [SkinCookie(userAgent).value]
      && |r.value| > 0 && r.value[|r.value| - 1] == ContinueChain
      && forall i :: 0 <= i < |r.value| - 1 ==> r.value[i].ChangeCookie?
  {
    match SkinCookie(userAgent)
    case Threw(e) => Threw(e)
    case Returned(cookie) =>
      CookiesWrittenAppend([ChangeCookie(cookie)], [ContinueChain]);
      Returned([ChangeCookie(cookie), ContinueChain])
  }

  /** Exactly one cookie is written on every request that gets through, it is
      "skin", its value is "mobile" or "content", and the chain is continued
      after it whichever value was chosen. */
  lemma OneSkinCookieThenChain(userAgent: Nullable<string>)
    requires userAgent.NonNull?
    ensures DoFilter(userAgent).Returned?
    ensures var effects := DoFilter(userAgent).value;
      && |CookiesWritten(effects)| == 1
      && CookiesWritten(effects)[0].name == "skin"
      && CookiesWritten(effects)[0].value in {"mobile", "content"}
      && effects[|effects| - 1] == ContinueChain
  {
  }

  /** The choice ignores letter case: headers equal but for case get the same cookie. */
  lemma CaseInsensitive(a: string, b: string)
    requires EqualsIgnoreCase(a, b)
    ensures SkinCookie(NonNull(a)) == SkinCookie(NonNull(b))
  {
    ToLowerCaseEqualIff(a, b);
  }

  /** A mobile token written in any letter case anywhere in the header makes
      the skin "mobile" ("Android", "iPHONE", "PAD", ...). */
  lemma TokenInAnyCaseIsMobile(ua: string, t: string, i: int, k: nat)
    requires k < |MobileTokens| && OccursAt(ua, t, i) && ToLowerCase(t) == MobileTokens[k]
    ensures SkinCookie(NonNull(ua)) == Returned(Cookie("skin", "mobile"))
  {
    ToLowerCaseKeepsOccurrence(ua, t, i);
  }

  /** A word in the lower-cased header that contains a token gives
      "mobile": the tokens match inside longer words. */
  lemma WordWithTokenIsMobile(ua: string, w: string, k: nat)
    requires k < |MobileTokens| && Occurs(ToLowerCase(ua), w) && Occurs(w, MobileTokens[k])
    ensures SkinCookie(NonNull(ua)) == Returned(Cookie("skin", "mobile"))
  {
    var i :| OccursAt(ToLowerCase(ua), w, i);
    var j :| OccursAt(w, MobileTokens[k], j);
    OccursWithin(ToLowerCase(ua), w, MobileTokens[k], i, j);
    MobileIffToken(ua);
  }

  /** "iphone" is covered by the token "phone". */
  lemma IPhoneIsMobile(ua: string)
    requires Occurs(ToLowerCase(ua), "iphone")
    ensures SkinCookie(NonNull(ua)) == Returned(Cookie("skin", "mobile"))
  {
    assert OccursAt("iphone", MobileTokens[1], 1);
    WordWithTokenIsMobile(ua, "iphone", 1);
  }

  /** "ipad" is covered by the token "pad". */
  lemma IPadIsMobile(ua: string)
    requires Occurs(ToLowerCase(ua), "ipad")
    ensures SkinCookie(NonNull(ua)) == Returned(Cookie("skin", "mobile"))
  {
    assert OccursAt("ipad", MobileTokens[2], 1);
    WordWithTokenIsMobile(ua, "ipad", 2);
  }

  /** A header without any of the tokens gets "content". */
  lemma NoTokenIsContent(ua: string)
    requires forall k :: 0 <= k < |MobileTokens| ==> !Occurs(ToLowerCase(ua), MobileTokens[k])
    ensures SkinCookie(NonNull(ua)) == Returned(Cookie("skin", "content"))
  {
    MobileIffToken(ua);
  }

  /** A missing header is not a default: the filter throws and neither
      writes a cookie nor continues the chain. */
  lemma MissingHeaderThrows()
    ensures SkinCookie(Null) == Threw(NullPointerException)
    ensures DoFilter(Null) == Threw(NullPointerException)
  {
  }

  /** An Android browser gets the mobile skin. */
  lemma AndroidExample()
    ensures SkinCookie(NonNull("Mozilla/5.0 (Linux; Android 10)")) == Returned(Cookie("skin", "mobile"))
  {
    assert OccursAt("Mozilla/5.0 (Linux; Android 10)", "Android", 20);
    assert ToLowerCase("Android") == "android";
    TokenInAnyCaseIsMobile("Mozilla/5.0 (Linux; Android 10)", "Android", 20, 0);
  }

  /** A desktop browser gets the content skin. */
  lemma DesktopExample()
    ensures SkinCookie(NonNull("Mozilla/5.0 (Windows NT 10.0)")) == Returned(Cookie("skin", "content"))
  {
    var ua := "Mozilla/5.0 (Windows NT 10.0)";
    assert 'r' !in ua && 'R' !in ua && 'p' !in ua && 'P' !in ua;
    NoPOrRIsContent(ua);
  }

  /** Every token holds a "p" or an "r", so a header with neither letter, in
      either case, gets "content". */
  lemma NoPOrRIsContent(ua: string)
    requires 'r' !in ua && 'R' !in ua && 'p' !in ua && 'P' !in ua
    ensures SkinCookie(NonNull(ua)) == Returned(Cookie("skin", "content"))
  {
    var header := ToLowerCase(ua);
    ToLowerCaseLacks(ua, 'r', 'R');
    ToLowerCaseLacks(ua, 'p', 'P');
    AbsentByMissingChar(header, "android", 'r');
    AbsentByMissingChar(header, "phone", 'p');
    AbsentByMissingChar(header, "pad", 'p');
    NoTokenIsContent(ua);
  }
}
