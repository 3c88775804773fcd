/** src/utils.js: the cookie string parser and writer, the Enter-key test,
    reading and clearing the text input, base64 of a byte buffer, and the
    decisions `makeChangesToChatbotAccordingToConfiguration` takes from the
    bot configuration. */
module Utils {
  import opened Wrappers
  import opened JsString
  import opened JsValue
  import opened Browser
  import Base64

  // ----- getDocumentCookies / setDocumentCookie ------------------------------

  /** The separator `getDocumentCookies` splits the cookie string at. */
  const CookieSeparator: string := "; "

  /** One `"; "`-separated piece as a key and a value: the key is the
      trimmed text before the first `=`, the value the text after it.
      Without `=`, `indexOf` gives -1, so the key is `slice(0, -1)` (the
      piece minus its last character) and the value `slice(0)`, the whole
      piece. */
  function CookieEntry(piece: string): (string, string) {
    var separatorIndex := IndexOf(piece, '=');
    (Trim(Slice(piece, 0, separatorIndex)), SliceFrom(piece, separatorIndex + 1))
  }

  function CookieEntries(pieces: seq<string>): (es: seq<(string, string)>)
    ensures |es| == |pieces|
    ensures forall i :: 0 <= i < |pieces| ==> es[i] == CookieEntry(pieces[i])
  {
    seq(|pieces|, i requires 0 <= i < |pieces| => CookieEntry(pieces[i]))
  }

  /** The `reduce` with object spread: entries are added left to right, so
      a later entry replaces an earlier one with the same key. */
  function Collect(entries: seq<(string, string)>): map<string, string>
    decreases |entries|
  {
    if entries == [] then map[]
    else
      var last := entries[|entries| - 1];
      Collect(entries[..|entries| - 1])[last.0 := last.1]
  }

  /** `getDocumentCookies()` applied to the cookie string `cookie`. */
  function ParseCookies(cookie: string): map<string, string> {
    if cookie == "" then map[] else Collect(CookieEntries(Split(cookie, CookieSeparator)))
  }

  /** No cookies for the empty string; otherwise the keys are exactly the
      keys of the `"; "`-separated pieces. */
  lemma ParseCookiesKeys(cookie: string)
    ensures cookie == "" ==> ParseCookies(cookie) == map[]
    ensures cookie != "" ==> var pieces := Split(cookie, CookieSeparator);
      forall k :: k in ParseCookies(cookie) <==> IsPieceKey(pieces, k)
  {
    if cookie != "" {
      var pieces := Split(cookie, CookieSeparator);
      assert ParseCookies(cookie) == Collect(CookieEntries(pieces));
      CookieKeys(pieces);
    }
  }

  /** The document's cookies as `getDocumentCookies` returns them. */
  function GetDocumentCookies(doc: Document): map<string, string>
    reads doc
  {
    ParseCookies(doc.cookie)
  }

  /** `setDocumentCookie(key, value)`: appends `"; key=value"` to the cookie string. */
  method SetDocumentCookie(doc: Document, key: string, value: string)
    modifies doc`cookie
    ensures doc.cookie == old(doc.cookie) + CookieSeparator + key + "=" + value
  {
    doc.cookie := doc.cookie + CookieSeparator + key + "=" + value;
  }

  /** The keys of the collected map are the keys of the entries. */
  lemma {:induction false} CollectKeys(es: seq<(string, string)>)
    ensures forall k :: k in Collect(es) <==> exists j :: 0 <= j < |es| && es[j].0 == k
    decreases |es|
  {
    if es != [] {
      var init := es[..|es| - 1];
      CollectKeys(init);
      assert Collect(es) == Collect(init)[es[|es| - 1].0 := es[|es| - 1].1];
      forall k | k in Collect(es) ensures exists j :: 0 <= j < |es| && es[j].0 == k {
        if k != es[|es| - 1].0 {
          assert k in Collect(init);
          var j :| 0 <= j < |init| && init[j].0 == k;
          assert es[j] == init[j];
        }
      }
      forall k | exists j :: 0 <= j < |es| && es[j].0 == k ensures k in Collect(es) {
        var j :| 0 <= j < |es| && es[j].0 == k;
        if j < |es| - 1 {
          assert init[j] == es[j];
        }
      }
    }
  }

  /** Some piece has key `k`. */
  predicate IsPieceKey(pieces: seq<string>, k: string) {
    exists j :: 0 <= j < |pieces| && CookieEntry(pieces[j]).0 == k
  }

  /** The keys of the parsed cookies are the keys of the pieces. */
  lemma CookieKeys(pieces: seq<string>)
    ensures forall k :: k in Collect(CookieEntries(pieces)) <==> IsPieceKey(pieces, k)
  {
    var es := CookieEntries(pieces);
    CollectKeys(es);
    forall k | k in Collect(es) ensures exists j :: 0 <= j < |pieces| && CookieEntry(pieces[j]).0 == k {
      var j :| 0 <= j < |es| && es[j].0 == k;
      assert CookieEntry(pieces[j]) == es[j];
    }
    forall k | exists j :: 0 <= j < |pieces| && CookieEntry(pieces[j]).0 == k ensures k in Collect(es) {
      var j :| 0 <= j < |pieces| && CookieEntry(pieces[j]).0 == k;
      assert es[j].0 == k;
    }
  }

  /** An entry's value is in the map when no later entry has its key. */
  lemma {:induction false} CollectLastWins(es: seq<(string, string)>, j: nat)
    requires j < |es|
    requires forall l :: j < l < |es| ==> es[l].0 != es[j].0
    ensures es[j].0 in Collect(es) && Collect(es)[es[j].0] == es[j].1
    decreases |es|
  {
    if j < |es| - 1 {
      var init := es[..|es| - 1];
      assert init[j] == es[j];
      forall l | j < l < |init| ensures init[l].0 != init[j].0 {
        assert init[l] == es[l];
      }
      CollectLastWins(init, j);
    }
  }

  /** A piece with `=` at position `i` and none before it. */
  lemma CookieEntryWithSeparator(piece: string, i: nat)
    requires i < |piece| && piece[i] == '=' && '=' !in piece[..i]
    ensures CookieEntry(piece) == (Trim(piece[..i]), piece[i + 1..])
  {
    forall j | 0 <= j < i ensures piece[j] != '=' {
      assert piece[..i][j] == piece[j];
    }
    IndexOfFirst(piece, '=', i);
    assert Slice(piece, 0, i) == piece[..i];
    assert SliceFrom(piece, i + 1) == piece[i + 1..];
  }

  /** A piece without `=`: the key loses the piece's last character and the
      value is the whole piece. */
  lemma CookieEntryWithoutSeparator(piece: string)
    requires '=' !in piece
    ensures CookieEntry(piece) == (Trim(if piece == "" then "" else piece[..|piece| - 1]), piece)
  {
    assert IndexOf(piece, '=') == -1;
    assert SliceFrom(piece, 0) == piece[0..];
    assert piece[0..] == piece;
    if piece != "" {
      assert Slice(piece, 0, -1) == piece[..|piece| - 1];
    }
  }

  /** When a key occurs in several pieces, the value of the last of them is the one returned. */
  lemma ParseCookiesLaterWins(cookie: string, j: nat)
    requires cookie != "" && j < |Split(cookie, CookieSeparator)|
    requires var pieces := Split(cookie, CookieSeparator);
      forall l :: j < l < |pieces| ==> CookieEntry(pieces[l]).0 != CookieEntry(pieces[j]).0
    ensures var e := CookieEntry(Split(cookie, CookieSeparator)[j]);
      e.0 in ParseCookies(cookie) && ParseCookies(cookie)[e.0] == e.1
  {
    var es := CookieEntries(Split(cookie, CookieSeparator));
    CollectLastWins(es, j);
  }

  /** `key=value` contains no `"; "` when neither part does. */
  lemma PairWithoutSeparator(key: string, value: string)
    requires !ContainsPair(key, ';', ' ') && !ContainsPair(value, ';', ' ')
    ensures !ContainsPair(key + "=" + value, ';', ' ')
  {
    var kv := key + "=" + value;
    forall i | 0 <= i < |kv| - 1 ensures !(kv[i] == ';' && kv[i + 1] == ' ') {
      if i + 1 < |key| {
        assert kv[i] == key[i] && kv[i + 1] == key[i + 1];
      } else if i + 1 == |key| {
        assert kv[i + 1] == '=';
      } else if i == |key| {
        assert kv[i] == '=';
      } else {
        assert kv[i] == value[i - |key| - 1] && kv[i + 1] == value[i - |key|];
      }
    }
  }

  /** Splitting the string after a set: the old pieces and then `key=value`. */
  lemma SplitAfterSet(cookie: string, key: string, value: string)
    requires !ContainsPair(key, ';', ' ') && !ContainsPair(value, ';', ' ')
    ensures Split(cookie + CookieSeparator + key + "=" + value, CookieSeparator)
      == Split(cookie, CookieSeparator) + [key + "=" + value]
  {
    var kv := key + "=" + value;
    assert cookie + CookieSeparator + key + "=" + value == cookie + CookieSeparator + kv;
    SplitAround(cookie, CookieSeparator, kv);
    PairWithoutSeparator(key, value);
    SplitWithoutSeparator(kv, CookieSeparator);
  }

  lemma CollectSnoc(pieces: seq<string>, piece: string)
    ensures var e := CookieEntry(piece);
      Collect(CookieEntries(pieces + [piece])) == Collect(CookieEntries(pieces))[e.0 := e.1]
  {
    var es := CookieEntries(pieces + [piece]);
    assert es[..|es| - 1] == CookieEntries(pieces);
  }

  lemma SetPairEntry(key: string, value: string)
    requires Trim(key) == key && '=' !in key
    ensures CookieEntry(key + "=" + value) == (key, value)
  {
    var kv := key + "=" + value;
    assert kv[..|key|] == key && kv[|key|] == '=' && kv[|key| + 1..] == value by {
      assert kv == key + ("=" + value);
    }
    CookieEntryWithSeparator(kv, |key|);
  }

  /** The empty cookie string split at `"; "` gives one entry with the empty key and value. */
  lemma EmptyPieceEntries()
    ensures Collect(CookieEntries(Split("", CookieSeparator))) == map["" := ""]
  {
    CookieEntryWithoutSeparator("");
    assert Trim("") == "";
    assert CookieEntries([""]) == [("", "")];
    assert Collect([("", "")]) == Collect([])["" := ""];
  }

  /** Setting a cookie and reading the cookies back gives the old cookies
      with `key` mapped to `value`, when the key is its own trim and has no
      `=`, and neither part has `"; "`. An empty cookie string also gains
      an entry with the empty key and the empty value, produced by the
      leading separator. */
  lemma ParseCookiesAfterSet(cookie: string, key: string, value: string)
    requires Trim(key) == key && '=' !in key
    requires !ContainsPair(key, ';', ' ') && !ContainsPair(value, ';', ' ')
    ensures ParseCookies(cookie + CookieSeparator + key + "=" + value)
      == (if cookie == "" then map["" := ""] else ParseCookies(cookie))[key := value]
  {
    var s := cookie + CookieSeparator + key + "=" + value;
    assert s != "" by { assert |s| >= 2; }
    SplitAfterSet(cookie, key, value);
    CollectSnoc(Split(cookie, CookieSeparator), key + "=" + value);
    SetPairEntry(key, value);
    if cookie == "" {
      EmptyPieceEntries();
    }
  }

  // ----- pressedKeyIsEnter / getInputValueAndClearInput ----------------------

  /** `pressedKeyIsEnter(event)`. */
  predicate PressedKeyIsEnter(e: KeyboardEvent) {
    e.code == "Enter"
  }

  /** `getInputValueAndClearInput(input)`: returns what the field held and empties it. */
  method GetInputValueAndClearInput(input: InputElement) returns (typedValue: string)
    modifies input`value
    ensures typedValue == old(input.value) && input.value == ""
  {
    typedValue := input.value;
    input.value := "";
  }

  // ----- arrayBufferToBase64 -------------------------------------------------

  /** The `reduce` of `String.fromCharCode(byte)`: one character per byte,
      with the byte's value as its code. */
  function Latin1(b: seq<bv8>): (s: string)
    ensures |s| == |b| && forall i :: 0 <= i < |b| ==> s[i] as int == b[i] as int
  {
    seq(|b|, i requires 0 <= i < |b| => CharOfByte(b[i]))
  }

  /** `String.fromCharCode(byte)`. */
  function CharOfByte(x: bv8): (c: char)
    ensures c as int == x as int
  {
    (x as int) as char
  }

  /** The byte whose value is `n`, counted up from zero (a direct
      conversion of an integer to a bit-vector is costly for the solver). */
  function ByteOfNat(n: nat): (x: bv8)
    requires n < 256
    ensures x as int == n
  {
    if n == 0 then 0 else ByteOfNat(n - 1) + 1
  }

  /** The code unit of a character below U+0100 as a byte. */
  function ByteOfChar(c: char): (x: bv8)
    requires c as int < 256
    ensures x as int == c as int
  {
    ByteOfNat(c as int)
  }

  /** The code units of a string whose characters are all below U+0100. */
  function CodeUnitBytes(s: string): (b: seq<bv8>)
    requires forall i :: 0 <= i < |s| ==> s[i] as int < 256
    ensures |b| == |s| && forall i :: 0 <= i < |s| ==> b[i] as int == s[i] as int
  {
    seq(|s|, i requires 0 <= i < |s| => ByteOfChar(s[i]))
  }

  /** `window.btoa(s)`: the base64 of the string's code units, or an
      `InvalidCharacterError` when one of them is above U+00FF. */
  function Btoa(s: string): (r: Result<string, JsError>)
    ensures r.Failure? <==> exists i :: 0 <= i < |s| && s[i] as int >= 256
  {
    if forall i :: 0 <= i < |s| ==> s[i] as int < 256 then Success(Base64.Encode(CodeUnitBytes(s)))
    else Failure(InvalidCharacterError)
  }

  /** `arrayBufferToBase64(buffer)`: the RFC 4648 base64 of the bytes. The
      Latin-1 string is always accepted by `btoa`. */
  function ArrayBufferToBase64(b: seq<bv8>): (r: string)
    ensures r == Base64.Encode(b)
  {
    var s := Latin1(b);
    assert CodeUnitBytes(s) == b;
    var t := Btoa(s);
    if t.Success? then t.value else ""
  }

  /** The result of `arrayBufferToBase64` has four characters per started
      group of three bytes, only alphabet characters followed by the
      padding, is empty for an empty buffer, and decodes back to the bytes. */
  lemma ArrayBufferToBase64IsRfc4648(b: seq<bv8>)
    ensures var r := ArrayBufferToBase64(b);
      && |r| == 4 * ((|b| + 2) / 3)
      && (forall i :: 0 <= i < |r| ==>
            (r[i] == '=' <==> i >= |r| - Base64.Padding(|b|)) && (r[i] != '=' ==> Base64.IsAlphabet(r[i])))
      && (b == [] <==> r == "")
      && Base64.Decode(r) == Some(b)
  {
    Base64.EncodeLength(b);
    Base64.EncodeCharacters(b);
    Base64.DecodeEncode(b);
  }

  // ----- makeChangesToChatbotAccordingToConfiguration ------------------------

  /** The DOM writes the configuration step makes. */
  datatype DomChange =
    | SetBotImage(logo: Option<Json>)
    | SetBotHeading(title: Option<Json>)
    | SetBotSubheading(subtitle: Option<Json>)
    | AppendWidgetButton(icon: string)
    | RemoveMicIcon
    | RemoveDropdownButton

  /** Whether the two elements the configuration step may remove are still
      in the page: the microphone icon `MIC_ICON` and the dropdown (ellipsis)
      button. */
  datatype Tray = Tray(micAttached: bool, dropdownAttached: bool)

  /** Both elements are in the page when it loads. */
  const LoadedTray: Tray := Tray(true, true)

  /** What the configuration step did, whether it threw part way, and which
      of the two elements are left in the page. */
  datatype Applied = Applied(changes: seq<DomChange>, outcome: Outcome<JsError>, tray: Tray)

  /** The five entries of `conf.widgets`, `None` where absent. */
  datatype WidgetFlags = WidgetFlags(
    accessCamera: Option<Json>,
    attachFiles: Option<Json>,
    attachImage: Option<Json>,
    location: Option<Json>,
    microphone: Option<Json>)

  /** The array the ellipsis test runs `every` over. */
  function FlagList(w: WidgetFlags): seq<Option<Json>> {
    [w.accessCamera, w.attachFiles, w.attachImage, w.location, w.microphone]
  }

  /** `[...].every((value) => value == false)`. */
  predicate EllipsisShouldBeRemoved(w: WidgetFlags) {
    forall i :: 0 <= i < |FlagList(w)| ==> LooselyEqualsFalse(FlagList(w)[i])
  }

  /** The icon and widget buttons, in the order the source appends them. */
  function WidgetChanges(w: WidgetFlags): seq<DomChange> {
    IconChanges(w)
    + (if !Truthy(w.microphone) then [RemoveMicIcon] else [])
    + (if EllipsisShouldBeRemoved(w) then [RemoveDropdownButton] else [])
  }

  /** `if (flag) appendWidget(icon)`. */
  function OptionalButton(flag: Option<Json>, icon: string): seq<DomChange> {
    if Truthy(flag) then [AppendWidgetButton(icon)] else []
  }

  function IconChanges(w: WidgetFlags): seq<DomChange> {
    OptionalButton(w.accessCamera, "camera") + OptionalButton(w.attachFiles, "paperclip")
    + OptionalButton(w.attachImage, "image") + OptionalButton(w.location, "location-pin")
  }

  /** The flags `widgets` is destructured into. */
  function FlagsOf(widgets: Json): WidgetFlags {
    WidgetFlags(Property(widgets, "accessCamera"), Property(widgets, "attachFiles"),
                Property(widgets, "attachImage"), Property(widgets, "location"), Property(widgets, "microphone"))
  }

  /** The three branding writes, from `conf`'s `logo`, `title` and `subtitle`. */
  function Branding(conf: Json): seq<DomChange> {
    [SetBotImage(Property(conf, "logo")), SetBotHeading(Property(conf, "title")),
     SetBotSubheading(Property(conf, "subtitle"))]
  }

  /** The widget step on a page whose tray is `t`. A microphone icon that
      was already removed has a `null` `parentNode`, and a dropdown that was
      already removed is not found by its id: removing either a second time
      throws a `TypeError`, after the buttons appended so far. */
  function ApplyWidgets(w: WidgetFlags, t: Tray): Applied {
    var removeMic := !Truthy(w.microphone);
    var removeEllipsis := EllipsisShouldBeRemoved(w);
    if removeMic && !t.micAttached then Applied(IconChanges(w), Fail(TypeError), t)
    else
      var t1 := if removeMic then t.(micAttached := false) else t;
      var mic := if removeMic then [RemoveMicIcon] else [];
      if removeEllipsis && !t1.dropdownAttached then Applied(IconChanges(w) + mic, Fail(TypeError), t1)
      else Applied(WidgetChanges(w), Pass, if removeEllipsis then t1.(dropdownAttached := false) else t1)
  }

  /** Every element the widget step removes is still in the page. */
  predicate RemovalsFind(w: WidgetFlags, t: Tray) {
    (!Truthy(w.microphone) ==> t.micAttached) && (EllipsisShouldBeRemoved(w) ==> t.dropdownAttached)
  }

  /** `makeChangesToChatbotAccordingToConfiguration` given `responseObject.conf`
      on a page whose tray is `t`. Destructuring `conf` or `widgets` throws a
      `TypeError` when it is `null` or `undefined`; the branding is written
      before `widgets` is destructured. */
  function ConfigurationChanges(conf: Option<Json>, t: Tray): Applied {
    if conf.None? || conf.value.JNull? then Applied([], Fail(TypeError), t)
    else
      var widgets := Property(conf.value, "widgets");
      if widgets.None? || widgets.value.JNull? then Applied(Branding(conf.value), Fail(TypeError), t)
      else
        var a := ApplyWidgets(FlagsOf(widgets.value), t);
        Applied(Branding(conf.value) + a.changes, a.outcome, a.tray)
  }

  /** The widget step succeeds exactly when it finds what it removes, and
      then makes all of `WidgetChanges(w)` and detaches what it removed;
      otherwise it throws a `TypeError` after a prefix of those changes. An
      element is never put back. */
  lemma ApplyWidgetsOutcome(w: WidgetFlags, t: Tray)
    ensures var a := ApplyWidgets(w, t);
      && (a.outcome.Pass? <==> RemovalsFind(w, t))
      && (a.outcome.Pass? ==>
            && a.changes == WidgetChanges(w)
            && a.tray == Tray(t.micAttached && Truthy(w.microphone), t.dropdownAttached && !EllipsisShouldBeRemoved(w)))
      && (a.outcome.Fail? ==>
            && a.outcome.error == TypeError
            && |a.changes| < |WidgetChanges(w)| && a.changes == WidgetChanges(w)[..|a.changes|])
      && (a.tray.micAttached ==> t.micAttached) && (a.tray.dropdownAttached ==> t.dropdownAttached)
  {
    var mic := if !Truthy(w.microphone) then [RemoveMicIcon] else [];
    var e := if EllipsisShouldBeRemoved(w) then [RemoveDropdownButton] else [];
    assert WidgetChanges(w) == IconChanges(w) + mic + e;
    assert (IconChanges(w) + mic + e)[..|IconChanges(w)|] == IconChanges(w);
    assert (IconChanges(w) + mic + e)[..|IconChanges(w) + mic|] == IconChanges(w) + mic;
  }

  /** The loaded page has both elements, so the first configuration never
      misses one. */
  lemma LoadedTrayFindsAll(w: WidgetFlags)
    ensures RemovalsFind(w, LoadedTray)
  {
  }

  /** A missing or `null` `conf` throws before any write; a missing or
      `null` `widgets` throws after the branding; otherwise the branding
      comes first, then the widget decisions, and the step throws exactly
      when it removes an element that is already gone. */
  lemma ConfigurationOrderAndErrors(conf: Option<Json>, t: Tray)
    ensures var a := ConfigurationChanges(conf, t);
      && (conf.None? || conf == Some(JNull) ==> a == Applied([], Fail(TypeError), t))
      && (a.outcome.Pass? <==> conf.Some? && conf.value.JObj? && Property(conf.value, "widgets").Some?
                               && Property(conf.value, "widgets") != Some(JNull)
                               && RemovalsFind(FlagsOf(Property(conf.value, "widgets").value), t))
      && (a.outcome.Fail? ==> a.outcome.error == TypeError)
      && (a.outcome.Pass? ==> a.changes == Branding(conf.value) + WidgetChanges(FlagsOf(Property(conf.value, "widgets").value)))
      && (conf.Some? && conf != Some(JNull) ==>
            |a.changes| >= 3 && a.changes[..3] == Branding(conf.value)
            && a.changes[0] == SetBotImage(Property(conf.value, "logo")))
  {
    if conf.Some? && conf != Some(JNull) {
      var widgets := Property(conf.value, "widgets");
      if widgets.Some? && widgets != Some(JNull) {
        ApplyWidgetsOutcome(FlagsOf(widgets.value), t);
      }
    }
  }

  /** The configuration removes the microphone icon or the dropdown. */
  predicate RemovesElement(conf: Option<Json>) {
    conf.Some? && Property(conf.value, "widgets").Some?
    && var w := FlagsOf(Property(conf.value, "widgets").value);
       !Truthy(w.microphone) || EllipsisShouldBeRemoved(w)
  }

  /** Applying a configuration again, on the page the first application
      left: it throws a `TypeError` exactly when it removes an element, and
      otherwise succeeds again. */
  lemma RepeatedConfiguration(conf: Option<Json>, t: Tray)
    requires ConfigurationChanges(conf, t).outcome.Pass?
    ensures var again := ConfigurationChanges(conf, ConfigurationChanges(conf, t).tray);
      (again.outcome == Fail(TypeError) <==> RemovesElement(conf)) && (again.outcome.Pass? <==> !RemovesElement(conf))
  {
    ConfigurationOrderAndErrors(conf, t);
    var w := FlagsOf(Property(conf.value, "widgets").value);
    ApplyWidgetsOutcome(w, t);
    var t1 := ConfigurationChanges(conf, t).tray;
    ConfigurationOrderAndErrors(conf, t1);
  }

  /** The fixed order of the optional widget buttons. */
  const WidgetOrder: seq<string> := ["camera", "paperclip", "image", "location-pin"]

  /** The flag that switches the button with the given icon on. */
  function FlagFor(w: WidgetFlags, icon: string): Option<Json> {
    if icon == "camera" then w.accessCamera
    else if icon == "paperclip" then w.attachFiles
    else if icon == "image" then w.attachImage
    else if icon == "location-pin" then w.location
    else None
  }

  /** The icons of `order` whose flag is truthy, in the order given. */
  function SelectedIcons(order: seq<string>, w: WidgetFlags): seq<string> {
    if order == [] then []
    else (if Truthy(FlagFor(w, order[0])) then [order[0]] else []) + SelectedIcons(order[1..], w)
  }

  /** The icons of the appended widget buttons, in order. */
  function ButtonIcons(changes: seq<DomChange>): seq<string> {
    if changes == [] then []
    else (if changes[0].AppendWidgetButton? then [changes[0].icon] else []) + ButtonIcons(changes[1..])
  }

  lemma {:induction false} ButtonIconsAppend(a: seq<DomChange>, b: seq<DomChange>)
    ensures ButtonIcons(a + b) == ButtonIcons(a) + ButtonIcons(b)
    decreases |a|
  {
    if a != [] {
      assert (a + b)[0] == a[0];
      assert (a + b)[1..] == a[1..] + b;
      ButtonIconsAppend(a[1..], b);
      var h := if a[0].AppendWidgetButton? then [a[0].icon] else [];
      assert ButtonIcons(a + b) == h + (ButtonIcons(a[1..]) + ButtonIcons(b));
      assert ButtonIcons(a) == h + ButtonIcons(a[1..]);
    } else {
      assert a + b == b;
    }
  }

  lemma ButtonIconsSingle(d: DomChange)
    ensures ButtonIcons([d]) == if d.AppendWidgetButton? then [d.icon] else []
  {
    assert [d][1..] == [];
  }

  lemma OptionalButtonIcons(flag: Option<Json>, icon: string)
    ensures ButtonIcons(OptionalButton(flag, icon)) == if Truthy(flag) then [icon] else []
  {
    ButtonIconsSingle(AppendWidgetButton(icon));
  }

  lemma SelectedIconsStep(order: seq<string>, w: WidgetFlags)
    requires order != []
    ensures SelectedIcons(order, w) == ButtonIcons(OptionalButton(FlagFor(w, order[0]), order[0])) + SelectedIcons(order[1..], w)
  {
    OptionalButtonIcons(FlagFor(w, order[0]), order[0]);
  }

  lemma IconChangesButtons(w: WidgetFlags)
    ensures ButtonIcons(IconChanges(w)) == ButtonIcons(OptionalButton(w.accessCamera, "camera"))
      + ButtonIcons(OptionalButton(w.attachFiles, "paperclip"))
      + ButtonIcons(OptionalButton(w.attachImage, "image"))
      + ButtonIcons(OptionalButton(w.location, "location-pin"))
  {
    var c, f := OptionalButton(w.accessCamera, "camera"), OptionalButton(w.attachFiles, "paperclip");
    var i, l := OptionalButton(w.attachImage, "image"), OptionalButton(w.location, "location-pin");
    ButtonIconsAppend(c + f + i, l);
    ButtonIconsAppend(c + f, i);
    ButtonIconsAppend(c, f);
  }

  lemma FixedOrderIcons(w: WidgetFlags)
    ensures SelectedIcons(WidgetOrder, w) == ButtonIcons(OptionalButton(w.accessCamera, "camera"))
      + ButtonIcons(OptionalButton(w.attachFiles, "paperclip"))
      + ButtonIcons(OptionalButton(w.attachImage, "image"))
      + ButtonIcons(OptionalButton(w.location, "location-pin"))
  {
    var cam := ButtonIcons(OptionalButton(w.accessCamera, "camera"));
    var clip := ButtonIcons(OptionalButton(w.attachFiles, "paperclip"));
    var img := ButtonIcons(OptionalButton(w.attachImage, "image"));
    var pin := ButtonIcons(OptionalButton(w.location, "location-pin"));
    var o1 := ["paperclip", "image", "location-pin"];
    var o2 := ["image", "location-pin"];
    var o3 := ["location-pin"];
    assert SelectedIcons(o3, w) == pin by {
      SelectedIconsStep(o3, w);
      assert o3[0] == "location-pin" && o3[1..] == [];
      assert FlagFor(w, "location-pin") == w.location;
    }
    assert SelectedIcons(o2, w) == img + pin by {
      SelectedIconsStep(o2, w);
      assert o2[0] == "image" && o2[1..] == o3;
      assert FlagFor(w, "image") == w.attachImage;
    }
    assert SelectedIcons(o1, w) == clip + (img + pin) by {
      SelectedIconsStep(o1, w);
      assert o1[0] == "paperclip" && o1[1..] == o2;
      assert FlagFor(w, "paperclip") == w.attachFiles;
    }
    assert SelectedIcons(WidgetOrder, w) == cam + (clip + (img + pin)) by {
      SelectedIconsStep(WidgetOrder, w);
      assert WidgetOrder[0] == "camera" && WidgetOrder[1..] == o1;
    }
    assert cam + (clip + (img + pin)) == cam + clip + img + pin;
  }

  /** Buttons are appended in the fixed order camera, paperclip, image,
      location-pin, exactly for the truthy flags. */
  lemma WidgetButtonsFollowFixedOrder(w: WidgetFlags)
    ensures ButtonIcons(WidgetChanges(w)) == SelectedIcons(WidgetOrder, w)
  {
    var m := if !Truthy(w.microphone) then [RemoveMicIcon] else [];
    var e := if EllipsisShouldBeRemoved(w) then [RemoveDropdownButton] else [];
    ButtonIconsAppend(IconChanges(w) + m, e);
    ButtonIconsAppend(IconChanges(w), m);
    ButtonIconsSingle(RemoveMicIcon);
    ButtonIconsSingle(RemoveDropdownButton);
    assert ButtonIcons(m) == [] && ButtonIcons(e) == [];
    IconChangesButtons(w);
    FixedOrderIcons(w);
  }

  /** The microphone icon is removed exactly when the flag is falsy. */
  lemma MicRemovedIffFalsy(w: WidgetFlags)
    ensures RemoveMicIcon in WidgetChanges(w) <==> !Truthy(w.microphone)
  {
  }

  /** The ellipsis is removed exactly when all five flags are loosely equal
      to `false`; a missing flag keeps it. */
  lemma EllipsisRemovedIffAllLooselyFalse(w: WidgetFlags)
    ensures RemoveDropdownButton in WidgetChanges(w) <==>
      LooselyEqualsFalse(w.accessCamera) && LooselyEqualsFalse(w.attachFiles) && LooselyEqualsFalse(w.attachImage)
      && LooselyEqualsFalse(w.location) && LooselyEqualsFalse(w.microphone)
    ensures None in FlagList(w) ==> RemoveDropdownButton !in WidgetChanges(w)
  {
    assert RemoveDropdownButton in WidgetChanges(w) <==> EllipsisShouldBeRemoved(w) by {
      var icons := IconChanges(w) + (if !Truthy(w.microphone) then [RemoveMicIcon] else []);
      assert RemoveDropdownButton !in icons;
      var e := if EllipsisShouldBeRemoved(w) then [RemoveDropdownButton] else [];
      assert WidgetChanges(w) == icons + e;
    }
    var f := FlagList(w);
    assert f == [w.accessCamera, w.attachFiles, w.attachImage, w.location, w.microphone];
    assert EllipsisShouldBeRemoved(w) <==>
      LooselyEqualsFalse(f[0]) && LooselyEqualsFalse(f[1]) && LooselyEqualsFalse(f[2])
      && LooselyEqualsFalse(f[3]) && LooselyEqualsFalse(f[4]);
  }

  /** A microphone flag that is truthy and yet loosely equal to `false`,
      with the other flags `false`: the ellipsis goes while the microphone stays. */
  lemma TruthyLooselyFalseMicrophone(m: Option<Json>)
    requires Truthy(m) && LooselyEqualsFalse(m)
    ensures var f := Some(JBool(false));
      WidgetChanges(WidgetFlags(f, f, f, f, m)) == [RemoveDropdownButton]
  {
    var f := Some(JBool(false));
    var w := WidgetFlags(f, f, f, f, m);
    assert IconChanges(w) == [];
    assert FlagList(w) == [f, f, f, f, m];
  }

  /** "0" is such a flag. */
  lemma StringZeroMicrophone()
    ensures var f := Some(JBool(false));
      WidgetChanges(WidgetFlags(f, f, f, f, Some(JStr("0")))) == [RemoveDropdownButton]
  {
    TruthyButLooselyFalse();
    TruthyLooselyFalseMicrophone(Some(JStr("0")));
  }
}
