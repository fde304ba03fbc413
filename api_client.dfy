/**
 * URL assembly of the game API client. Only the string handling is modelled: the stored base
 * URL, `stripTrailingSlash`, `buildUrl` and the endpoint path templates. Percent-encoding by
 * `URLEncoder.encode` is the parameter `urlEncode`; the HTTP calls themselves are not modelled.
 */
module ApiClient {
  import opened Wrappers
  import opened JavaText

  /** The exceptions the constructors can throw: `NullRejected` is what `requireNonNull` throws,
      `IllegalArgument` is `IllegalArgumentException`. */
  datatype ClientError = NullRejected | IllegalArgument

  /** The client's only state that matters here: its base URL, fixed at construction. */
  datatype GameClient = GameClient(baseUrl: string)

  /** `stripTrailingSlash`: rejects null and blank URLs, then removes one trailing slash. */
  function StripTrailingSlash(url: Option<string>): (r: Result<string, ClientError>)
    ensures r.Failure? <==> url.None? || IsBlank(url.value)
    ensures r.Failure? ==> r.error == IllegalArgument
    ensures r.Success? && EndsWith(url.value, '/') ==> r.value + "/" == url.value
    ensures r.Success? && !EndsWith(url.value, '/') ==> r.value == url.value
  {
    match url
    case None => Failure(IllegalArgument)
    case Some(s) =>
      if IsBlank(s) then Failure(IllegalArgument)
      else if EndsWith(s, '/') then
        assert s[..|s| - 1] + "/" == s;
        Success(s[..|s| - 1])
      else Success(s)
  }

  /** The two-argument constructor: `requireNonNull`, then strip once. */
  function NewClientWithHttp(baseUrl: Option<string>): (r: Result<GameClient, ClientError>)
    ensures baseUrl.None? ==> r == Failure(NullRejected)
    ensures baseUrl.Some? ==> (r.Success? <==> StripTrailingSlash(baseUrl).Success?)
    ensures baseUrl.Some? && r.Success? ==> r.value == GameClient(StripTrailingSlash(baseUrl).value)
    ensures baseUrl.Some? && r.Failure? ==> r.error == IllegalArgument
  {
    match baseUrl
    case None => Failure(NullRejected)
    case Some(_) =>
      match StripTrailingSlash(baseUrl)
      case Failure(e) => Failure(e)
      case Success(u) => Success(GameClient(u))
  }

  /** The one-argument constructor: strips, then hands over to the two-argument one, which strips again. */
  function NewClient(baseUrl: Option<string>): (r: Result<GameClient, ClientError>)
    ensures r.Success? ==>
      (StripTrailingSlash(baseUrl).Success? && NewClientWithHttp(Some(StripTrailingSlash(baseUrl).value)) == r)
    ensures r.Failure? ==> r.error == IllegalArgument
    ensures StripTrailingSlash(baseUrl).Failure? ==> r == Failure(IllegalArgument)
    ensures StripTrailingSlash(baseUrl).Success? ==>
      r == NewClientWithHttp(Some(StripTrailingSlash(baseUrl).value))
  {
    match StripTrailingSlash(baseUrl)
    case Failure(e) => Failure(e)
    case Success(u) => NewClientWithHttp(Some(u))
  }

  /** `s` without one trailing slash, if it has one. */
  function DropLastSlash(s: string): string {
    if EndsWith(s, '/') then s[..|s| - 1] else s
  }

  /** `s` without one leading slash, if it has one. */
  function DropFirstSlash(s: string): string {
    if StartsWith(s, '/') then s[1..] else s
  }

  /** `buildUrl`: join base and path with one slash, adding or dropping one where needed. */
  function BuildUrl(baseUrl: string, path: string): (r: string)
    ensures EndsWith(baseUrl, '/') && StartsWith(path, '/') ==> r == baseUrl + path[1..]
    ensures !EndsWith(baseUrl, '/') && !StartsWith(path, '/') ==> r == baseUrl + "/" + path
    ensures EndsWith(baseUrl, '/') != StartsWith(path, '/') ==> r == baseUrl + path
  {
    var baseEndsWithSlash := EndsWith(baseUrl, '/');
    var pathStartsWithSlash := StartsWith(path, '/');
    if baseEndsWithSlash && pathStartsWithSlash then baseUrl + path[1..]
    else if !baseEndsWithSlash && !pathStartsWithSlash then baseUrl + "/" + path
    else baseUrl + path
  }

  /** Whatever the two sides bring, the joint holds exactly one of their slashes. */
  lemma BuildUrlOneSlash(baseUrl: string, path: string)
    ensures BuildUrl(baseUrl, path) == DropLastSlash(baseUrl) + "/" + DropFirstSlash(path)
  {
    if EndsWith(baseUrl, '/') {
      assert baseUrl == baseUrl[..|baseUrl| - 1] + "/";
    }
    if StartsWith(path, '/') {
      assert path == "/" + path[1..];
    }
  }

  /** `encodePathSegment`: null stays null; otherwise percent-encode and turn '+' into "%20". */
  function EncodePathSegment(s: Option<string>, urlEncode: string -> string): (r: Option<string>)
    ensures s.None? <==> r.None?
    ensures r.Some? ==> '+' !in r.value
    ensures r.Some? && '+' !in urlEncode(s.value) ==> r.value == urlEncode(s.value)
  {
    match s
    case None => None
    case Some(t) => Some(ReplacePlus(urlEncode(t)))
  }

  /** `replace("+", "%20")` */
  function ReplacePlus(s: string): (r: string)
    ensures '+' !in r
    ensures '+' !in s ==> r == s
  {
    if s == [] then []
    else (if s[0] == '+' then "%20" else [s[0]]) + ReplacePlus(s[1..])
  }

  /** A single character: '+' becomes "%20", anything else stays. */
  lemma ReplacePlusChar(c: char)
    ensures ReplacePlus([c]) == if c == '+' then "%20" else [c]
  {
    assert [c][1..] == [];
  }

  /** The replacement works character by character: it distributes over concatenation. */
  lemma {:induction false} ReplacePlusAppend(a: string, b: string)
    ensures ReplacePlus(a + b) == ReplacePlus(a) + ReplacePlus(b)
  {
    if a == [] {
      assert a + b == b;
    } else {
      assert (a + b)[0] == a[0];
      assert (a + b)[1..] == a[1..] + b;
      ReplacePlusAppend(a[1..], b);
    }
  }

  /** A space that the encoder turned into '+' reaches the URL as "%20". */
  lemma EncodedSpace(t: string, urlEncode: string -> string, before: string, after: string)
    requires urlEncode(t) == before + "+" + after
    ensures EncodePathSegment(Some(t), urlEncode) ==
      Some(ReplacePlus(before) + "%20" + ReplacePlus(after))
  {
    ReplacePlusAppend(before + "+", after);
    ReplacePlusAppend(before, "+");
    ReplacePlusChar('+');
  }

  /** `String.format("%s", x)` writes a null argument as "null". */
  function FormatArg(s: Option<string>): string {
    match s
    case None => "null"
    case Some(t) => t
  }

  const PathStart: string := "/game/start"

  function PathMessages(gameId: string): string { "/" + gameId + "/messages" }
  function PathSolve(gameId: string, adId: string): string { "/" + gameId + "/solve/" + adId }
  function PathShop(gameId: string): string { "/" + gameId + "/shop" }
  function PathBuy(gameId: string, itemId: string): string { "/" + gameId + "/shop/buy/" + itemId }
  function PathInvestigate(gameId: string): string { "/" + gameId + "/investigate/reputation" }

  function StartUrl(c: GameClient): string {
    BuildUrl(c.baseUrl, PathStart)
  }

  function MessagesUrl(c: GameClient, gameId: Option<string>, urlEncode: string -> string): string {
    BuildUrl(c.baseUrl, PathMessages(FormatArg(EncodePathSegment(gameId, urlEncode))))
  }

  function SolveUrl(c: GameClient, gameId: Option<string>, adId: Option<string>, urlEncode: string -> string): string {
    BuildUrl(c.baseUrl, PathSolve(FormatArg(EncodePathSegment(gameId, urlEncode)),
                                  FormatArg(EncodePathSegment(adId, urlEncode))))
  }

  function ShopUrl(c: GameClient, gameId: Option<string>, urlEncode: string -> string): string {
    BuildUrl(c.baseUrl, PathShop(FormatArg(EncodePathSegment(gameId, urlEncode))))
  }

  function BuyUrl(c: GameClient, gameId: Option<string>, itemId: Option<string>, urlEncode: string -> string): string {
    BuildUrl(c.baseUrl, PathBuy(FormatArg(EncodePathSegment(gameId, urlEncode)),
                                FormatArg(EncodePathSegment(itemId, urlEncode))))
  }

  function InvestigateUrl(c: GameClient, gameId: Option<string>, urlEncode: string -> string): string {
    BuildUrl(c.baseUrl, PathInvestigate(FormatArg(EncodePathSegment(gameId, urlEncode))))
  }

  // ---------------------------------------------------------------- properties

  /** Appending to a non-blank string keeps it non-blank. */
  lemma NotBlankExtended(s: string, suffix: string)
    requires !IsBlank(s)
    ensures !IsBlank(s + suffix)
  {
    BlankIffAllTrimmed(s);
    BlankIffAllTrimmed(s + suffix);
    var i :| 0 <= i < |s| && !IsTrimmable(s[i]);
    assert (s + suffix)[i] == s[i];
  }

  /** Stripping `s + "/"` gives back `s`. */
  lemma StripSlashed(s: string)
    requires !IsBlank(s)
    ensures StripTrailingSlash(Some(s + "/")) == Success(s)
  {
    NotBlankExtended(s, "/");
    assert (s + "/")[..|s + "/"| - 1] == s;
  }

  /** A non-blank base URL gives the same start URL with or without one trailing slash. */
  lemma StartUrlIgnoresTrailingSlash(base: string)
    requires !IsBlank(base) && !EndsWith(base, '/')
    ensures NewClientWithHttp(Some(base)) == Success(GameClient(base))
    ensures NewClientWithHttp(Some(base + "/")) == Success(GameClient(base))
    ensures StartUrl(GameClient(base)) == base + "/game/start"
  {
    StripSlashed(base);
  }

  /** Blank or null base URLs are refused: null by `requireNonNull` in the two-argument
      constructor, everything else with an `IllegalArgumentException`. */
  lemma ConstructorsRefuse(baseUrl: Option<string>)
    requires baseUrl.None? || IsBlank(baseUrl.value)
    ensures NewClient(baseUrl) == Failure(IllegalArgument)
    ensures NewClientWithHttp(baseUrl) == if baseUrl.None? then Failure(NullRejected) else Failure(IllegalArgument)
  {
  }

  /** The one-argument constructor strips twice, the two-argument one once. */
  lemma ConstructorsStripDifferently(base: string)
    requires !IsBlank(base) && !EndsWith(base, '/')
    ensures NewClient(Some(base + "//")) == Success(GameClient(base))
    ensures NewClientWithHttp(Some(base + "//")) == Success(GameClient(base + "/"))
  {
    NotBlankExtended(base, "/");
    assert base + "//" == (base + "/") + "/";
    StripSlashed(base + "/");
    StripSlashed(base);
  }

  /** A path that starts with a slash is joined to the base without its trailing slash. */
  lemma JoinSlashPath(baseUrl: string, rest: string)
    ensures BuildUrl(baseUrl, "/" + rest) == DropLastSlash(baseUrl) + "/" + rest
  {
    BuildUrlOneSlash(baseUrl, "/" + rest);
    assert ("/" + rest)[1..] == rest;
  }

  /** The start URL is the base without its trailing slash followed by "/game/start". */
  lemma StartUrlForm(c: GameClient)
    ensures StartUrl(c) == DropLastSlash(c.baseUrl) + "/game/start"
  {
    JoinSlashPath(c.baseUrl, "game/start");
  }

  /** The messages URL: base, one slash, the encoded game id, "/messages". */
  lemma MessagesUrlForm(c: GameClient, gameId: string, urlEncode: string -> string)
    ensures MessagesUrl(c, Some(gameId), urlEncode) ==
      DropLastSlash(c.baseUrl) + "/" + ReplacePlus(urlEncode(gameId)) + "/messages"
  {
    var g := ReplacePlus(urlEncode(gameId));
    assert PathMessages(g) == "/" + (g + "/messages");
    JoinSlashPath(c.baseUrl, g + "/messages");
  }

  /** The shop URL: base, one slash, the encoded game id, "/shop". */
  lemma ShopUrlForm(c: GameClient, gameId: string, urlEncode: string -> string)
    ensures ShopUrl(c, Some(gameId), urlEncode) ==
      DropLastSlash(c.baseUrl) + "/" + ReplacePlus(urlEncode(gameId)) + "/shop"
  {
    var g := ReplacePlus(urlEncode(gameId));
    assert PathShop(g) == "/" + (g + "/shop");
    JoinSlashPath(c.baseUrl, g + "/shop");
  }

  /** The investigate URL: base, one slash, the encoded game id, "/investigate/reputation". */
  lemma InvestigateUrlForm(c: GameClient, gameId: string, urlEncode: string -> string)
    ensures InvestigateUrl(c, Some(gameId), urlEncode) ==
      DropLastSlash(c.baseUrl) + "/" + ReplacePlus(urlEncode(gameId)) + "/investigate/reputation"
  {
    var g := ReplacePlus(urlEncode(gameId));
    assert PathInvestigate(g) == "/" + (g + "/investigate/reputation");
    JoinSlashPath(c.baseUrl, g + "/investigate/reputation");
  }

  /** The solve URL: base, one slash, the encoded game id, "/solve/", the encoded offer id. */
  lemma SolveUrlForm(c: GameClient, gameId: string, adId: string, urlEncode: string -> string)
    ensures SolveUrl(c, Some(gameId), Some(adId), urlEncode) ==
      DropLastSlash(c.baseUrl) + "/" + ReplacePlus(urlEncode(gameId)) + "/solve/" + ReplacePlus(urlEncode(adId))
  {
    var g := ReplacePlus(urlEncode(gameId));
    var x := ReplacePlus(urlEncode(adId));
    assert FormatArg(EncodePathSegment(Some(gameId), urlEncode)) == g;
    assert FormatArg(EncodePathSegment(Some(adId), urlEncode)) == x;
    var rest := g + "/solve/" + x;
    assert PathSolve(g, x) == "/" + rest;
    JoinSlashPath(c.baseUrl, rest);
    var b := DropLastSlash(c.baseUrl);
    assert b + "/" + rest == b + "/" + g + "/solve/" + x;
  }

  /** The buy URL: base, one slash, the encoded game id, "/shop/buy/", the encoded item id. */
  lemma BuyUrlForm(c: GameClient, gameId: string, itemId: string, urlEncode: string -> string)
    ensures BuyUrl(c, Some(gameId), Some(itemId), urlEncode) ==
      DropLastSlash(c.baseUrl) + "/" + ReplacePlus(urlEncode(gameId)) + "/shop/buy/" + ReplacePlus(urlEncode(itemId))
  {
    var g := ReplacePlus(urlEncode(gameId));
    var x := ReplacePlus(urlEncode(itemId));
    assert FormatArg(EncodePathSegment(Some(gameId), urlEncode)) == g;
    assert FormatArg(EncodePathSegment(Some(itemId), urlEncode)) == x;
    var rest := g + "/shop/buy/" + x;
    assert PathBuy(g, x) == "/" + rest;
    JoinSlashPath(c.baseUrl, rest);
    var b := DropLastSlash(c.baseUrl);
    assert b + "/" + rest == b + "/" + g + "/shop/buy/" + x;
  }

  /** A null id is encoded as null and formatted as the text "null". */
  lemma NullSegment(c: GameClient, urlEncode: string -> string)
    ensures EncodePathSegment(None, urlEncode) == None
    ensures MessagesUrl(c, None, urlEncode) == DropLastSlash(c.baseUrl) + "/null/messages"
  {
    BuildUrlOneSlash(c.baseUrl, PathMessages("null"));
  }
}
