/** The chat socket address built when a message is submitted (app/page.tsx). */
module Endpoint {

  import opened Wrappers

  const HttpPrefix: string := "http://"
  const HttpsPrefix: string := "https://"
  /** Host used when no backend address is configured. */
  const DefaultHost: string := "localhost:8000"
  /** Path of the chat endpoint; the chat id follows it. */
  const ChatPath: string := "/constella-external-api/chat-with-user/"

  /** Socket scheme chosen from the page's protocol: secure only under `https:`. */
  function SchemeFor(protocol: string): (scheme: string)
    ensures scheme == "wss:" || scheme == "ws:"
    ensures scheme == "wss:" <==> protocol == "https:"
  {
    if protocol == "https:" then "wss:" else "ws:"
  }

  /** Removes one leading `http://` or `https://`, as the anchored, case-sensitive,
      first-match-only pattern `^https?://` does. */
  function StripScheme(url: string): (rest: string)
    ensures |rest| <= |url| && url[|url| - |rest|..] == rest
    ensures url[..|url| - |rest|] in {"", HttpPrefix, HttpsPrefix}
    ensures HasHttpScheme(url) ==> |rest| < |url|
  {
    if HttpsPrefix <= url then
      assert url[..|HttpsPrefix|] == HttpsPrefix;
      url[|HttpsPrefix|..]
    else if HttpPrefix <= url then
      assert url[..|HttpPrefix|] == HttpPrefix;
      url[|HttpPrefix|..]
    else url
  }

  /** True when `url` begins with one of the two prefixes the pattern removes. */
  predicate HasHttpScheme(url: string)
  {
    HttpPrefix <= url || HttpsPrefix <= url
  }

  /** The host part: the backend address without its http(s) scheme, falling back
      to the default host when the address is absent or nothing is left of it. */
  function Host(backendUrl: Option<string>): (host: string)
    ensures host != ""
  {
    match backendUrl
    case None => DefaultHost
    case Some(url) =>
      var rest := StripScheme(url);
      if rest == "" then DefaultHost else rest
  }

  /** The full socket address for a chat. */
  function ChatUrl(protocol: string, backendUrl: Option<string>, chatId: string): (url: string)
    ensures |url| > |SchemeFor(protocol)| + 2 + |ChatPath + chatId|
  {
    SchemeFor(protocol) + "//" + Host(backendUrl) + ChatPath + chatId
  }

  /** Prefixing either scheme is exactly undone by the stripping. */
  lemma StripSchemeInvertsPrefix(host: string)
    ensures StripScheme(HttpPrefix + host) == host
    ensures StripScheme(HttpsPrefix + host) == host
  {
    assert (HttpPrefix + host)[4] == ':';
    assert !(HttpsPrefix <= HttpPrefix + host);
  }

  /** An address is left untouched exactly when it carries neither scheme. */
  lemma StripSchemeIdentity(url: string)
    ensures StripScheme(url) == url <==> !HasHttpScheme(url)
  {
  }

  /** The default host is used exactly when there is no address, or the address is
      empty or nothing but a scheme. */
  lemma HostDefaultsExactly(backendUrl: Option<string>)
    ensures backendUrl.None? ==> Host(backendUrl) == DefaultHost
    ensures backendUrl.Some? && backendUrl.value in {"", HttpPrefix, HttpsPrefix} ==>
      Host(backendUrl) == DefaultHost
    ensures backendUrl.Some? && backendUrl.value !in {"", HttpPrefix, HttpsPrefix} ==>
      Host(backendUrl) == StripScheme(backendUrl.value)
  {
    if backendUrl.Some? {
      var url := backendUrl.value;
      if StripScheme(url) == "" {
        if HttpsPrefix <= url {
          assert url == HttpsPrefix;
        } else if HttpPrefix <= url {
          assert url == HttpPrefix;
        }
      }
    }
  }

  /** The address splits back into scheme, host, and chat path with the chat id. */
  lemma ChatUrlParts(protocol: string, backendUrl: Option<string>, chatId: string)
    ensures var url := ChatUrl(protocol, backendUrl, chatId);
      var s := |SchemeFor(protocol)| + 2;
      var tail := |ChatPath + chatId|;
      && url[..s] == SchemeFor(protocol) + "//"
      && url[s..|url| - tail] == Host(backendUrl)
      && url[|url| - tail..] == ChatPath + chatId
  {
    var scheme := SchemeFor(protocol) + "//";
    var host := Host(backendUrl);
    var tail := ChatPath + chatId;
    var url := ChatUrl(protocol, backendUrl, chatId);
    assert url == scheme + host + tail;
    assert url[..|scheme|] == scheme;
    assert url[|url| - |tail|..] == tail;
    assert url[|scheme|..|url| - |tail|] == host;
  }

  lemma PrefixExtends(p: string, a: string, b: string)
    requires p <= a
    ensures p <= a + b
  {
    assert (a + b)[..|p|] == a[..|p|];
  }

  /** The address is secure (`wss://`) exactly when the page is served over `https:`,
      and plain (`ws://`) otherwise. */
  lemma ChatUrlSecureIff(protocol: string, backendUrl: Option<string>, chatId: string)
    ensures "wss://" <= ChatUrl(protocol, backendUrl, chatId) <==> protocol == "https:"
    ensures protocol != "https:" ==> "ws://" <= ChatUrl(protocol, backendUrl, chatId)
  {
    var head := SchemeFor(protocol) + "//";
    var host := Host(backendUrl);
    var p := if protocol == "https:" then "wss://" else "ws://";
    assert head == p;
    PrefixExtends(p, head, host);
    PrefixExtends(p, head + host, ChatPath);
    PrefixExtends(p, head + host + ChatPath, chatId);
    var url := ChatUrl(protocol, backendUrl, chatId);
    assert url == head + host + ChatPath + chatId;
    assert p <= url;
    if protocol != "https:" {
      assert url[2] == p[2] == ':';
    }
  }

}
