/** src/fingerprint.js: choosing the client's identity (the `sender`
    cookie, else the fingerprint library's visitor id) and keeping it in
    the global `window.browserFP`. */
module Fingerprint {
  import opened Wrappers
  import opened JsString
  import opened JsValue
  import opened Browser
  import opened Utils

  /** What `FingerPrintAgent.get()` resolves to, reduced to `visitorId`. */
  datatype FingerprintResult = FingerprintResult(visitorId: string)

  /** The FingerprintJS library. Its answer is fixed for one browser; it
      counts how often an agent was loaded and asked. */
  class FingerprintLibrary {
    const visitorId: string
    var calls: nat

    constructor (visitorId: string)
      ensures this.visitorId == visitorId && calls == 0
    {
      this.visitorId := visitorId;
      calls := 0;
    }

    /** `FingerprintJS.load()` followed by `agent.get()`. */
    method LoadAndGet() returns (r: FingerprintResult)
      modifies this`calls
      ensures r == FingerprintResult(visitorId) && calls == old(calls) + 1
    {
      r := FingerprintResult(visitorId);
      calls := calls + 1;
    }
  }

  /** `getBrowserFingerPrint()`. */
  method GetBrowserFingerPrint(lib: FingerprintLibrary) returns (fingerprint: FingerprintResult)
    modifies lib`calls
    ensures fingerprint.visitorId == lib.visitorId && lib.calls == old(lib.calls) + 1
  {
    fingerprint := lib.LoadAndGet();
  }

  /** `setClientFingerPrint(value)`. */
  method SetClientFingerPrint(w: Window, value: string)
    modifies w`browserFP
    ensures GetClientFingerPrint(w) == Some(value)
  {
    w.browserFP := Some(value);
  }

  /** `getClientFingerPrint()`: `undefined` (here `None`) until an identity is set. */
  function GetClientFingerPrint(w: Window): Option<string>
    reads w
  {
    w.browserFP
  }

  /** The `sender` cookie when the ternary's test accepts it: the key is
      present and its value has a positive `length`. The first conjunct,
      `cookies !== {}`, compares with a fresh object and is always true. */
  function SenderCookie(cookies: map<string, string>): (r: Option<string>)
    ensures r.Some? <==> "sender" in cookies && cookies["sender"] != ""
    ensures r.Some? ==> r.value == cookies["sender"]
  {
    if "sender" in cookies && Utf16Length(cookies["sender"]) > 0 then Some(cookies["sender"]) else None
  }

  /** The identity `initializeFingerPrint` chooses. */
  function Identity(cookies: map<string, string>, visitorId: string): string {
    match SenderCookie(cookies)
    case Some(sender) => sender
    case None => visitorId
  }

  /** `initializeFingerPrint()`, run to completion. The library is asked
      only when no usable `sender` cookie exists, the cookie string is not
      written, and `window.browserFP` is the only global that changes. */
  method InitializeFingerPrint(w: Window, doc: Document, lib: FingerprintLibrary)
    modifies w`browserFP, lib`calls
    ensures w.browserFP == Some(Identity(GetDocumentCookies(doc), lib.visitorId))
    ensures lib.calls == old(lib.calls) + (if SenderCookie(GetDocumentCookies(doc)).Some? then 0 else 1)
  {
    var cookies := GetDocumentCookies(doc);
    var sender := SenderCookie(cookies);
    var clientFP: string;
    if sender.Some? {
      clientFP := sender.value;
    } else {
      var fingerprint := GetBrowserFingerPrint(lib);
      clientFP := fingerprint.visitorId;
    }
    SetClientFingerPrint(w, clientFP);
  }

  /** A non-empty `sender` cookie is the identity, whatever the library answers. */
  lemma IdentityFromCookie(cookies: map<string, string>, visitorId: string)
    requires "sender" in cookies && cookies["sender"] != ""
    ensures Identity(cookies, visitorId) == cookies["sender"]
  {
  }

  /** Without a non-empty `sender` cookie the identity is the visitor id. */
  lemma IdentityFromLibrary(cookies: map<string, string>, visitorId: string)
    requires "sender" !in cookies || cookies["sender"] == ""
    ensures Identity(cookies, visitorId) == visitorId
  {
  }

  /** A `sender` cookie "abc123" is the identity; with no cookies the
      visitor id "fp-987" is. */
  lemma IdentityScenarios(visitorId: string)
    ensures Identity(map["sender" := "abc123"], visitorId) == "abc123"
    ensures Identity(map[], "fp-987") == "fp-987"
  {
    IdentityFromCookie(map["sender" := "abc123"], visitorId);
  }

  /** Two browsers with the same non-empty `sender` cookie get the same
      identity, even when their fingerprints differ. */
  lemma SameSenderSameIdentity(c1: map<string, string>, c2: map<string, string>, v1: string, v2: string)
    requires "sender" in c1 && "sender" in c2 && c1["sender"] == c2["sender"] != ""
    ensures Identity(c1, v1) == Identity(c2, v2)
  {
    IdentityFromCookie(c1, v1);
    IdentityFromCookie(c2, v2);
  }

  /** "sender" is its own trim. */
  lemma SenderKeyIsTrimmed()
    ensures Trim("sender") == "sender"
  {
    var key := "sender";
    assert key[0] == 's' && key[|key| - 1] == 'r';
    TrimOfTrimmed(key);
  }

  /** "sender" holds neither `=` nor `"; "`. */
  lemma SenderKeyHasNoSeparator()
    ensures '=' !in "sender" && !ContainsPair("sender", ';', ' ')
  {
    var key := "sender";
    forall i | 0 <= i < |key| ensures key[i] != '=' && key[i] != ';' {
    }
  }

  /** After `setDocumentCookie("sender", v)`, whatever the cookie string was
      before, a non-empty `v` without `"; "` becomes the identity. */
  lemma SetSenderCookieIsIdentity(cookie: string, value: string, visitorId: string)
    requires value != "" && !ContainsPair(value, ';', ' ')
    ensures Identity(ParseCookies(cookie + CookieSeparator + "sender" + "=" + value), visitorId) == value
  {
    SenderKeyIsTrimmed();
    SenderKeyHasNoSeparator();
    ParseCookiesAfterSet(cookie, "sender", value);
    var cookies := ParseCookies(cookie + CookieSeparator + "sender" + "=" + value);
    assert "sender" in cookies && cookies["sender"] == value;
    IdentityFromCookie(cookies, visitorId);
  }
}
