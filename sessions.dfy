/**
 * frontend/src/modules/session-manager.js: the host-side session registry,
 * the storage wrappers the isolation script installs in each page, and the
 * auto-play script's click-retry machine.
 */
module Sessions {
  import opened Common

  // ---------------------------------------------------------------------------
  // Host side: the session registry
  // ---------------------------------------------------------------------------

  /** The cap the session record carries; nothing ever reads it. */
  const SessionRecordMaxClicks: nat := 5

  datatype Session = Session(
    id: string, status: string, lastActivity: int,
    autoPlayActive: bool, clickAttempts: nat, maxClickAttempts: nat)

  /** The record `createSession` stores. */
  function NewSession(lobbyId: string, now: int): (s: Session)
    ensures s.id == lobbyId && s.status == "initializing" && s.lastActivity == now
    ensures !s.autoPlayActive && s.clickAttempts == 0 && s.maxClickAttempts == SessionRecordMaxClicks
  {
    Session(lobbyId, "initializing", now, false, 0, SessionRecordMaxClicks)
  }

  /** What one tick of the 10-second session monitor does. */
  datatype MonitorOutcome =
    | NoSession         // the session is gone: the monitor clears itself
    | WebviewGone       // the webview is gone: the session is destroyed, the monitor clears itself
    | ProbedPage        // the page-side auto-play probe was sent

  class SessionManager {
    var sessions: map<string, Session>
    var autoPlayEnabled: bool
    /** Monitor interval per lobby. */
    var sessionTimeouts: map<string, TimerHandle>

    constructor ()
      ensures sessions == map[] && sessionTimeouts == map[] && autoPlayEnabled
    {
      sessions := map[];
      autoPlayEnabled := true;
      sessionTimeouts := map[];
    }

    /** `createSession(lobbyId)`, with `now` the reading of `Date.now()`. */
    method CreateSession(lobbyId: string, now: int) returns (session: Session)
      modifies this
      ensures session == NewSession(lobbyId, now)
      ensures sessions == old(sessions)[lobbyId := session]
      ensures sessionTimeouts == old(sessionTimeouts) && autoPlayEnabled == old(autoPlayEnabled)
    {
      session := NewSession(lobbyId, now);
      sessions := sessions[lobbyId := session];
    }

    /** `startSessionMonitoring(lobbyId)`; `handle` is what setInterval returned. */
    method StartSessionMonitoring(lobbyId: string, handle: TimerHandle)
      modifies this
      ensures sessionTimeouts == old(sessionTimeouts)[lobbyId := handle]
      ensures sessions == old(sessions) && autoPlayEnabled == old(autoPlayEnabled)
    {
      sessionTimeouts := sessionTimeouts[lobbyId := handle];
    }

    /**
     * `initializeWebviewSession`: a new session record and a monitor timer.
     * The isolation and auto-play scripts it registers run in the page and
     * are modelled by the classes below.
     */
    method InitializeWebviewSession(lobbyId: string, now: int, handle: TimerHandle) returns (session: Session)
      modifies this
      ensures session == NewSession(lobbyId, now)
      ensures sessions == old(sessions)[lobbyId := session]
      ensures sessionTimeouts == old(sessionTimeouts)[lobbyId := handle]
      ensures autoPlayEnabled == old(autoPlayEnabled)
    {
      session := CreateSession(lobbyId, now);
      StartSessionMonitoring(lobbyId, handle);
    }

    /**
     * `destroySession(lobbyId)`: drops the record and clears and drops the
     * monitor timer; returns the cleared timer. Unknown ids change nothing.
     */
    method DestroySession(lobbyId: string) returns (cleared: Option<TimerHandle>)
      modifies this
      ensures sessions == old(sessions) - {lobbyId}
      ensures sessionTimeouts == old(sessionTimeouts) - {lobbyId}
      ensures cleared == if lobbyId in old(sessionTimeouts) then Some(old(sessionTimeouts)[lobbyId]) else None
      ensures lobbyId !in old(sessions) && lobbyId !in old(sessionTimeouts) ==>
                sessions == old(sessions) && sessionTimeouts == old(sessionTimeouts)
      ensures autoPlayEnabled == old(autoPlayEnabled)
    {
      if lobbyId in sessions {
        sessions := sessions - {lobbyId};
      }
      cleared := None;
      if lobbyId in sessionTimeouts {
        cleared := Some(sessionTimeouts[lobbyId]);
        sessionTimeouts := sessionTimeouts - {lobbyId};
      }
    }

    /**
     * One tick of the monitor of `lobbyId`: refreshes `lastActivity`, and
     * destroys the session when the webview element is gone.
     */
    method MonitorTick(lobbyId: string, now: int, webviewPresent: bool) returns (outcome: MonitorOutcome)
      modifies this
      ensures lobbyId !in old(sessions) ==> outcome == NoSession && sessions == old(sessions) && sessionTimeouts == old(sessionTimeouts)
      ensures lobbyId in old(sessions) && !webviewPresent ==>
                outcome == WebviewGone && sessions == old(sessions) - {lobbyId} && sessionTimeouts == old(sessionTimeouts) - {lobbyId}
      ensures lobbyId in old(sessions) && webviewPresent ==>
                outcome == ProbedPage && sessions == old(sessions)[lobbyId := old(sessions)[lobbyId].(lastActivity := now)]
                && sessionTimeouts == old(sessionTimeouts)
      ensures autoPlayEnabled == old(autoPlayEnabled)
    {
      if lobbyId !in sessions {
        return NoSession;
      }
      sessions := sessions[lobbyId := sessions[lobbyId].(lastActivity := now)];
      if !webviewPresent {
        var _ := DestroySession(lobbyId);
        return WebviewGone;
      }
      outcome := ProbedPage;
    }
  }

  // ---------------------------------------------------------------------------
  // Page side: the isolated storage wrappers
  // ---------------------------------------------------------------------------

  /** `sessionKey + '_'`. */
  function Prefix(sessionKey: string): string {
    sessionKey + "_"
  }

  /** `sessionKey + '_' + key`, the name a wrapper stores `key` under. */
  function StorageKey(sessionKey: string, key: string): (k: string)
    ensures StartsWith(k, Prefix(sessionKey))
  {
    Prefix(sessionKey) + key
  }

  /**
   * Isolation: when two session keys differ and neither contains `_`, no
   * name one wrapper stores under carries the other's prefix. So one
   * wrapper's writes and clears never reach the other's entries.
   */
  lemma ForeignKeyOutsidePrefix(a: string, b: string, key: string)
    requires NoUnderscore(a) && NoUnderscore(b) && a != b
    ensures !StartsWith(StorageKey(b, key), Prefix(a))
  {
    var k := StorageKey(b, key);
    if |a| < |b| {
      // where `a`'s prefix has its `_`, `b`'s name has a character of `b`
      assert k[|a|] == b[|a|] != '_';
    } else if |b| < |a| {
      // where `b`'s name has its `_`, `a`'s prefix has a character of `a`
      assert k[|b|] == '_' != a[|b|];
    } else if |k| >= |Prefix(a)| {
      assert k[..|Prefix(a)|][..|a|] == b != a;
    }
  }

  /** Distinct underscore-free session keys never store under the same name. */
  lemma StorageKeysDisjoint(a: string, b: string, keyA: string, keyB: string)
    requires NoUnderscore(a) && NoUnderscore(b) && a != b
    ensures StorageKey(a, keyA) != StorageKey(b, keyB)
  {
    ForeignKeyOutsidePrefix(a, b, keyB);
  }

  /** Lobby identifiers qualify as session keys for the isolation lemmas. */
  lemma LobbyIdsIsolated(m: nat, n: nat, keyA: string, keyB: string)
    requires m != n
    ensures StorageKey(LobbyId(m), keyA) != StorageKey(LobbyId(n), keyB)
    ensures !StartsWith(StorageKey(LobbyId(n), keyB), Prefix(LobbyId(m)))
  {
    if LobbyId(m) == LobbyId(n) {
      LobbyIdInjective(m, n);
    }
    ForeignKeyOutsidePrefix(LobbyId(m), LobbyId(n), keyB);
  }

  /** The keys of `m` that start with `prefix`. */
  function KeysWithPrefix(m: map<string, string>, prefix: string): (ks: set<string>)
    ensures forall k :: k in ks <==> k in m && StartsWith(k, prefix)
  {
    set k | k in m && StartsWith(k, prefix)
  }

  /** `m` without the keys in `ks`. */
  function Without(m: map<string, string>, ks: set<string>): (r: map<string, string>)
    ensures forall k :: k in r <==> k in m && k !in ks
    ensures forall k :: k in r ==> r[k] == m[k]
  {
    map k | k in m && k !in ks :: m[k]
  }

  /** `this.data[k] || null`: a missing key and a stored empty string both read as null. */
  function Lookup(data: map<string, string>, k: string): (r: Option<string>)
    ensures r.Some? <==> k in data && data[k] != ""
    ensures r.Some? ==> r.value == data[k]
  {
    if k in data && data[k] != "" then Some(data[k]) else None
  }

  /** The page's original `localStorage` (of the webview's partition). */
  class SharedStorage {
    var items: map<string, string>

    constructor (items: map<string, string>)
      ensures this.items == items
    {
      this.items := items;
    }
  }

  /**
   * The `localStorage` replacement: a private map plus a mirror of every
   * write and removal into the original storage. Reads consult only the
   * private map, which starts empty in every script context.
   */
  class IsolatedLocalStorage {
    const sessionKey: string
    const original: SharedStorage
    var data: map<string, string>

    ghost predicate Valid()
      reads this
    {
      forall k :: k in data ==> StartsWith(k, Prefix(sessionKey))
    }

    constructor (sessionKey: string, original: SharedStorage)
      ensures Valid() && this.sessionKey == sessionKey && this.original == original && data == map[]
    {
      this.sessionKey := sessionKey;
      this.original := original;
      data := map[];
    }

    function GetItem(key: string): (r: Option<string>)
      reads this
      ensures r == Lookup(data, StorageKey(sessionKey, key))
    {
      Lookup(data, StorageKey(sessionKey, key))
    }

    method SetItem(key: string, value: string)
      requires Valid()
      modifies this, original
      ensures Valid()
      ensures data == old(data)[StorageKey(sessionKey, key) := value]
      ensures original.items == old(original.items)[StorageKey(sessionKey, key) := value]
      ensures GetItem(key) == if value == "" then None else Some(value)
    {
      data := data[StorageKey(sessionKey, key) := value];
      original.items := original.items[StorageKey(sessionKey, key) := value];
    }

    method RemoveItem(key: string)
      requires Valid()
      modifies this, original
      ensures Valid()
      ensures data == old(data) - {StorageKey(sessionKey, key)}
      ensures original.items == old(original.items) - {StorageKey(sessionKey, key)}
      ensures GetItem(key) == None
    {
      data := data - {StorageKey(sessionKey, key)};
      original.items := original.items - {StorageKey(sessionKey, key)};
    }

    /**
     * Deletes, from both maps, the private keys that carry this session's
     * prefix (all of them). Original entries this context never wrote stay.
     */
    method Clear()
      requires Valid()
      modifies this, original
      ensures Valid() && data == map[]
      ensures original.items == Without(old(original.items), KeysWithPrefix(old(data), Prefix(sessionKey)))
    {
      var prefix := Prefix(sessionKey);
      ghost var doomed := KeysWithPrefix(data, prefix);
      var keys := data.Keys;
      while keys != {}
        invariant keys <= old(data).Keys
        invariant data == Without(old(data), doomed - keys)
        invariant original.items == Without(old(original.items), doomed - keys)
        decreases keys
      {
        var k :| k in keys;
        if StartsWith(k, prefix) {
          data := data - {k};
          original.items := original.items - {k};
        }
        keys := keys - {k};
      }
      assert doomed == old(data).Keys;
    }
  }

  /** The `sessionStorage` replacement: a private map only. */
  class IsolatedSessionStorage {
    const sessionKey: string
    var data: map<string, string>

    constructor (sessionKey: string)
      ensures this.sessionKey == sessionKey && data == map[]
    {
      this.sessionKey := sessionKey;
      data := map[];
    }

    function GetItem(key: string): (r: Option<string>)
      reads this
      ensures r == Lookup(data, StorageKey(sessionKey, key))
    {
      Lookup(data, StorageKey(sessionKey, key))
    }

    method SetItem(key: string, value: string)
      modifies this
      ensures data == old(data)[StorageKey(sessionKey, key) := value]
      ensures GetItem(key) == if value == "" then None else Some(value)
    {
      data := data[StorageKey(sessionKey, key) := value];
    }

    method RemoveItem(key: string)
      modifies this
      ensures data == old(data) - {StorageKey(sessionKey, key)}
      ensures GetItem(key) == None
    {
      data := data - {StorageKey(sessionKey, key)};
    }

    /** `this.data = {}`: every entry goes, whatever its prefix. */
    method Clear()
      modifies this
      ensures data == map[]
    {
      data := map[];
    }
  }

  // ---------------------------------------------------------------------------
  // Page side: the auto-play script
  // ---------------------------------------------------------------------------

  /** The script's own cap on clicks (the session record's cap is unused). */
  const MaxClickAttempts: nat := 10

  datatype Rect = Rect(left: real, top: real, width: real, height: real)

  /**
   * A DOM element as the script sees it: whether it is rendered
   * (`offsetParent !== null`), `disabled`, `textContent`, and its box.
   */
  datatype Element = Element(rendered: bool, disabled: bool, text: string, rect: Rect)

  /** `querySelectorAll` either throws (an invalid selector) or lists matches in document order. */
  datatype QueryResult = Threw | Matches(elements: seq<Element>)

  /**
   * The page at one instant: `querySelectorAll` as an oracle, and
   * `document.body.textContent`.
   */
  datatype Dom = Dom(query: string -> QueryResult, bodyText: string)

  /** A CSS selector, or a pseudo-selector `button:contains("…")` the script emulates. */
  datatype Selector = Css(css: string) | ButtonText(needle: string)

  /** The ten selectors, tried in this order. */
  const PlaySelectors: seq<Selector> := [
    Css("button[data-testid=\"play-button\"]"),
    Css("button[aria-label*=\"Play\"]"),
    Css("button[aria-label*=\"play\"]"),
    ButtonText("Play"),
    ButtonText("PLAY"),
    Css(".play-button"),
    Css("[data-automation-id=\"play-button\"]"),
    Css("button[class*=\"play\"]"),
    Css("div[role=\"button\"][aria-label*=\"Play\"]"),
    Css("div[role=\"button\"][aria-label*=\"play\"]")
  ]

  /** The body-text phrases that mean "press play" to the observer and the retry timer. */
  const PlayIndicators: seq<string> := [
    "click here to play", "click to play", "tap to play",
    "press to play", "start playing", "launch game"
  ]

  /** The shorter list the host's 10-second monitor probes with. */
  const MonitorIndicators: seq<string> := ["click here to play", "click to play", "tap to play"]

  /** The trimmed, lower-cased text of a button contains `lowered` (the lower-cased needle). */
  predicate TextMatches(e: Element, lowered: string) {
    Contains(Lower(Trim(e.text)), lowered)
  }

  /** `a` is `b` with some elements left out, the rest in their order. */
  predicate IsSubsequence<T(==)>(a: seq<T>, b: seq<T>)
    decreases |b|
  {
    |a| == 0 || (|b| > 0 && ((a[0] == b[0] && IsSubsequence(a[1..], b[1..])) || IsSubsequence(a, b[1..])))
  }

  /** `Array.prototype.filter` with `TextMatches`. */
  function FilterText(els: seq<Element>, lowered: string): (r: seq<Element>)
    ensures |r| <= |els|
    ensures forall e :: e in r <==> e in els && TextMatches(e, lowered)
  {
    if |els| == 0 then []
    else (if TextMatches(els[0], lowered) then [els[0]] else []) + FilterText(els[1..], lowered)
  }

  /** The filter keeps the order of the elements it keeps. */
  lemma {:induction false} FilterTextIsSubsequence(els: seq<Element>, lowered: string)
    ensures IsSubsequence(FilterText(els, lowered), els)
  {
    if |els| > 0 {
      var rest := FilterText(els[1..], lowered);
      FilterTextIsSubsequence(els[1..], lowered);
      if TextMatches(els[0], lowered) {
        assert FilterText(els, lowered) == [els[0]] + rest;
        assert ([els[0]] + rest)[1..] == rest;
      } else {
        assert FilterText(els, lowered) == rest;
      }
    }
  }

  /** The filter keeps every matching element as often as it occurs, and nothing else. */
  lemma {:induction false} FilterTextCounts(els: seq<Element>, lowered: string)
    ensures forall e :: multiset(FilterText(els, lowered))[e] == (if TextMatches(e, lowered) then multiset(els)[e] else 0)
  {
    if |els| > 0 {
      FilterTextCounts(els[1..], lowered);
      assert els == [els[0]] + els[1..];
      assert multiset(els) == multiset{els[0]} + multiset(els[1..]);
    }
  }

  /** The selector string `querySelectorAll` is called with: the CSS itself, or `button` for a text search. */
  function QueryFor(sel: Selector): string {
    match sel
    case Css(css) => css
    case ButtonText(_) => "button"
  }

  /** The elements one selector yields, or None when the query throws. */
  function Candidates(sel: Selector, dom: Dom): (r: Option<seq<Element>>)
    ensures r.None? <==> dom.query(QueryFor(sel)).Threw?
    ensures sel.Css? && r.Some? ==> dom.query(sel.css) == Matches(r.value)
    ensures sel.ButtonText? && r.Some? ==> r.value == FilterText(dom.query("button").elements, Lower(sel.needle))
    ensures sel.ButtonText? && r.Some? ==> forall e :: e in r.value ==> TextMatches(e, Lower(sel.needle))
  {
    match sel
    case Css(css) =>
      (match dom.query(css) case Threw => None case Matches(els) => Some(els))
    case ButtonText(needle) =>
      (match dom.query("button") case Threw => None case Matches(els) => Some(FilterText(els, Lower(needle))))
  }

  /** A rendered, enabled element: the script's test before clicking. */
  predicate Clickable(e: Element) {
    e.rendered && !e.disabled
  }

  /** The first clickable element of `els`, by position. */
  function FirstClickable(els: seq<Element>): (r: Option<nat>)
    ensures r.None? <==> forall i :: 0 <= i < |els| ==> !Clickable(els[i])
    ensures r.Some? ==> r.value < |els| && Clickable(els[r.value])
    ensures r.Some? ==> forall j :: 0 <= j < r.value ==> !Clickable(els[j])
  {
    if |els| == 0 then None
    else if Clickable(els[0]) then Some(0)
    else match FirstClickable(els[1..]) case None => None case Some(i) => Some(i + 1)
  }

  /** The selector does not throw and yields a clickable element. */
  predicate Yields(sel: Selector, dom: Dom) {
    Candidates(sel, dom).Some? && FirstClickable(Candidates(sel, dom).value).Some?
  }

  /** The first clickable element a yielding selector finds. */
  function Pick(sel: Selector, dom: Dom): Element
    requires Yields(sel, dom)
  {
    Candidates(sel, dom).value[FirstClickable(Candidates(sel, dom).value).value]
  }

  /**
   * The element the script clicks: the first clickable element of the first
   * selector (in list order) that yields one; selectors that throw are skipped.
   */
  function FirstTarget(sels: seq<Selector>, dom: Dom): (r: Option<Element>)
    ensures r.Some? ==> Clickable(r.value)
  {
    if |sels| == 0 then None
    else if Yields(sels[0], dom) then Some(Pick(sels[0], dom))
    else FirstTarget(sels[1..], dom)
  }

  /** No target is found exactly when no selector yields one. */
  lemma {:induction false} NoTargetIffNoYield(sels: seq<Selector>, dom: Dom)
    ensures FirstTarget(sels, dom).None? <==> forall k :: 0 <= k < |sels| ==> !Yields(sels[k], dom)
  {
    if |sels| > 0 {
      var tail := sels[1..];
      NoTargetIffNoYield(tail, dom);
      if !Yields(sels[0], dom) {
        assert FirstTarget(sels, dom) == FirstTarget(tail, dom);
        assert forall k :: 1 <= k < |sels| ==> sels[k] == tail[k - 1];
      }
    }
  }

  /**
   * The selector search has priority: the element clicked is what the first
   * yielding selector picks, and every selector before it yields nothing.
   */
  lemma {:induction false} FirstTargetIsFirstYield(sels: seq<Selector>, dom: Dom)
    requires FirstTarget(sels, dom).Some?
    ensures exists k :: && 0 <= k < |sels| && Yields(sels[k], dom)
                        && FirstTarget(sels, dom).value == Pick(sels[k], dom)
                        && forall j :: 0 <= j < k ==> !Yields(sels[j], dom)
  {
    var tail := sels[1..];
    if Yields(sels[0], dom) {
      assert FirstTarget(sels, dom) == Some(Pick(sels[0], dom));
    } else {
      assert FirstTarget(sels, dom) == FirstTarget(tail, dom);
      FirstTargetIsFirstYield(tail, dom);
      var k :| && 0 <= k < |tail| && Yields(tail[k], dom) && FirstTarget(tail, dom).value == Pick(tail[k], dom)
               && forall j :: 0 <= j < k ==> !Yields(tail[j], dom);
      assert sels[k + 1] == tail[k];
      forall j | 0 <= j < k + 1
        ensures !Yields(sels[j], dom)
      {
        if j > 0 {
          assert sels[j] == tail[j - 1];
        }
      }
    }
  }

  /** The inner loop of the selector search: the first clickable element found by one selector. */
  method ScanElements(els: seq<Element>) returns (r: Option<nat>)
    ensures r == FirstClickable(els)
  {
    var i := 0;
    while i < |els|
      invariant 0 <= i <= |els|
      invariant forall j :: 0 <= j < i ==> !Clickable(els[j])
    {
      if Clickable(els[i]) {
        assert FirstClickable(els) == Some(i);
        return Some(i);
      }
      i := i + 1;
    }
    assert FirstClickable(els).None?;
    return None;
  }

  /** The selector search of `findAndClickPlayButton`, as the two nested loops the script runs. */
  method SelectTarget(sels: seq<Selector>, dom: Dom) returns (target: Option<Element>)
    ensures target == FirstTarget(sels, dom)
  {
    var k := 0;
    while k < |sels|
      invariant 0 <= k <= |sels|
      invariant FirstTarget(sels, dom) == FirstTarget(sels[k..], dom)
    {
      assert sels[k..][1..] == sels[k + 1..];
      var found := Candidates(sels[k], dom);
      if found.Some? {
        var i := ScanElements(found.value);
        if i.Some? {
          return Some(found.value[i.value]);
        }
      }
      k := k + 1;
    }
    return None;
  }

  /** `:contains("Play")` and `:contains("PLAY")` select the same buttons, so the second never finds a new target. */
  lemma TextSelectorsCoincide(dom: Dom)
    ensures Candidates(PlaySelectors[3], dom) == Candidates(PlaySelectors[4], dom)
  {
    assert PlaySelectors[3] == ButtonText("Play") && PlaySelectors[4] == ButtonText("PLAY");
    assert Lower("Play") == Lower("PLAY") by {
      assert forall i :: 0 <= i < 4 ==> Lower("Play")[i] == Lower("PLAY")[i];
    }
  }

  /** Some indicator occurs in the lower-cased text. */
  predicate AnyIndicator(text: string, indicators: seq<string>) {
    exists i :: 0 <= i < |indicators| && Contains(Lower(text), indicators[i])
  }

  /** Whatever makes the host's monitor fire also makes the page's own check fire. */
  lemma MonitorImpliesPlay(text: string)
    requires AnyIndicator(text, MonitorIndicators)
    ensures AnyIndicator(text, PlayIndicators)
  {
    var i :| 0 <= i < |MonitorIndicators| && Contains(Lower(text), MonitorIndicators[i]);
    assert MonitorIndicators[i] == PlayIndicators[i];
  }

  datatype MouseKind = MouseDown | MouseUp | MouseClick | DirectClick

  /** One event the script schedules, `delay` milliseconds after the find. */
  datatype Dispatch = Dispatch(kind: MouseKind, delay: nat, x: real, y: real)

  /**
   * The human-like click: mousedown now, mouseup and click after 50 ms,
   * `element.click()` after 100 ms, all at the centre of the box.
   */
  function ClickSequence(rect: Rect): (evs: seq<Dispatch>)
    ensures |evs| == 4
    ensures evs[0].kind == MouseDown && evs[1].kind == MouseUp && evs[2].kind == MouseClick && evs[3].kind == DirectClick
    ensures forall i, j :: 0 <= i < j < 4 ==> evs[i].delay <= evs[j].delay
    ensures rect.width >= 0.0 && rect.height >= 0.0 ==>
              forall i :: 0 <= i < 4 ==>
                rect.left <= evs[i].x <= rect.left + rect.width && rect.top <= evs[i].y <= rect.top + rect.height
  {
    var x := rect.left + rect.width / 2.0;
    var y := rect.top + rect.height / 2.0;
    [Dispatch(MouseDown, 0, x, y), Dispatch(MouseUp, 50, x, y),
     Dispatch(MouseClick, 50, x, y), Dispatch(DirectClick, 100, x, y)]
  }

  /**
   * The closure state of one page's auto-play script: the `autoPlayActive`
   * flag, the click counter, and the timers it has scheduled. Each
   * activation `e` starts a 2-second retry interval `e` and a 30-second
   * cut-off `e` that clears it; `liveRetries` and `pendingCutoffs` are the
   * ones not yet cleared or fired.
   */
  class AutoPlayScript {
    var autoPlayActive: bool
    var clickAttempts: nat
    var liveRetries: set<nat>
    var pendingCutoffs: set<nat>
    var nextTimer: nat

    ghost predicate Valid()
      reads this
    {
      && clickAttempts <= MaxClickAttempts
      && liveRetries <= pendingCutoffs
      && (forall e :: e in pendingCutoffs ==> e < nextTimer)
    }

    /** Active with nothing left that could ever clear the flag: the observer's check is off for good. */
    predicate Stuck()
      reads this
    {
      autoPlayActive && liveRetries == {} && pendingCutoffs == {}
    }

    constructor ()
      ensures Valid() && !autoPlayActive && clickAttempts == 0
      ensures liveRetries == {} && pendingCutoffs == {}
    {
      autoPlayActive := false;
      clickAttempts := 0;
      liveRetries := {};
      pendingCutoffs := {};
      nextTimer := 0;
    }

    /**
     * `findAndClickPlayButton` (also `window.triggerAutoPlay`): below the cap,
     * clicks the first target and counts the attempt; at the cap, does nothing.
     */
    method FindAndClickPlayButton(dom: Dom) returns (clicked: Option<Element>, events: seq<Dispatch>)
      requires Valid()
      modifies this
      ensures Valid()
      ensures clicked == if old(clickAttempts) >= MaxClickAttempts then None else FirstTarget(PlaySelectors, dom)
      ensures clickAttempts == if clicked.Some? then old(clickAttempts) + 1 else old(clickAttempts)
      ensures events == if clicked.Some? then ClickSequence(clicked.value.rect) else []
      ensures autoPlayActive == old(autoPlayActive) && liveRetries == old(liveRetries)
      ensures pendingCutoffs == old(pendingCutoffs) && nextTimer == old(nextTimer)
    {
      if clickAttempts >= MaxClickAttempts {
        return None, [];
      }
      clicked := SelectTarget(PlaySelectors, dom);
      events := [];
      if clicked.Some? {
        events := ClickSequence(clicked.value.rect);
        clickAttempts := clickAttempts + 1;
      }
    }

    /**
     * `checkForPlayButton` (on every DOM mutation and every 5 seconds): when
     * the body asks for play and no activation is running, activates; the
     * retry and cut-off timers start only if the first click found a target.
     */
    method CheckForPlayButton(dom: Dom) returns (clicked: Option<Element>)
      requires Valid()
      modifies this
      ensures Valid()
      ensures !(AnyIndicator(dom.bodyText, PlayIndicators) && !old(autoPlayActive)) ==>
                clicked.None? && clickAttempts == old(clickAttempts) && autoPlayActive == old(autoPlayActive)
                && liveRetries == old(liveRetries) && pendingCutoffs == old(pendingCutoffs)
      ensures AnyIndicator(dom.bodyText, PlayIndicators) && !old(autoPlayActive) ==>
                autoPlayActive
                && clicked == (if old(clickAttempts) >= MaxClickAttempts then None else FirstTarget(PlaySelectors, dom))
                && liveRetries == old(liveRetries) + (if clicked.Some? then {old(nextTimer)} else {})
                && pendingCutoffs == old(pendingCutoffs) + (if clicked.Some? then {old(nextTimer)} else {})
      ensures clickAttempts == if clicked.Some? then old(clickAttempts) + 1 else old(clickAttempts)
      ensures old(Stuck()) ==> Stuck()
      ensures (AnyIndicator(dom.bodyText, PlayIndicators) && !old(autoPlayActive) && clicked.None?
               && old(pendingCutoffs) == {}) ==> Stuck()
    {
      clicked := None;
      if AnyIndicator(dom.bodyText, PlayIndicators) && !autoPlayActive {
        autoPlayActive := true;
        var events;
        clicked, events := FindAndClickPlayButton(dom);
        if clicked.Some? {
          liveRetries := liveRetries + {nextTimer};
          pendingCutoffs := pendingCutoffs + {nextTimer};
          nextTimer := nextTimer + 1;
        }
      }
    }

    /**
     * A tick of retry interval `e`: below the cap, clicks again while the
     * body still asks for play and otherwise deactivates and clears itself;
     * at the cap, clears itself and leaves the flag set.
     */
    method RetryTick(e: nat, dom: Dom) returns (clicked: Option<Element>)
      requires Valid() && e in liveRetries
      modifies this
      ensures Valid()
      ensures old(clickAttempts) >= MaxClickAttempts ==>
                clicked.None? && liveRetries == old(liveRetries) - {e} && autoPlayActive == old(autoPlayActive)
      ensures old(clickAttempts) < MaxClickAttempts && AnyIndicator(dom.bodyText, PlayIndicators) ==>
                clicked == FirstTarget(PlaySelectors, dom) && liveRetries == old(liveRetries)
                && autoPlayActive == old(autoPlayActive)
      ensures old(clickAttempts) < MaxClickAttempts && !AnyIndicator(dom.bodyText, PlayIndicators) ==>
                clicked.None? && liveRetries == old(liveRetries) - {e} && !autoPlayActive
      ensures clickAttempts == if clicked.Some? then old(clickAttempts) + 1 else old(clickAttempts)
      ensures pendingCutoffs == old(pendingCutoffs)
    {
      clicked := None;
      if clickAttempts < MaxClickAttempts {
        if AnyIndicator(dom.bodyText, PlayIndicators) {
          var events;
          clicked, events := FindAndClickPlayButton(dom);
        } else {
          autoPlayActive := false;
          liveRetries := liveRetries - {e};
        }
      } else {
        liveRetries := liveRetries - {e};
      }
    }

    /**
     * Cut-off `e` fires 30 seconds after its activation: it clears retry `e`
     * and resets the flag, even when a later activation is the one running.
     */
    method CutoffFires(e: nat)
      requires Valid() && e in pendingCutoffs
      modifies this
      ensures Valid()
      ensures !autoPlayActive
      ensures liveRetries == old(liveRetries) - {e} && pendingCutoffs == old(pendingCutoffs) - {e}
      ensures clickAttempts == old(clickAttempts)
    {
      liveRetries := liveRetries - {e};
      pendingCutoffs := pendingCutoffs - {e};
      autoPlayActive := false;
    }

    /**
     * The host monitor's probe: clicks through `window.triggerAutoPlay` when
     * one of the three monitor phrases is in the body, whatever the flag says.
     */
    method MonitorProbe(dom: Dom) returns (clicked: Option<Element>)
      requires Valid()
      modifies this
      ensures Valid()
      ensures clicked == if AnyIndicator(dom.bodyText, MonitorIndicators) && old(clickAttempts) < MaxClickAttempts
                         then FirstTarget(PlaySelectors, dom) else None
      ensures clickAttempts == if clicked.Some? then old(clickAttempts) + 1 else old(clickAttempts)
      ensures autoPlayActive == old(autoPlayActive) && liveRetries == old(liveRetries)
      ensures pendingCutoffs == old(pendingCutoffs)
    {
      clicked := None;
      if AnyIndicator(dom.bodyText, MonitorIndicators) {
        var events;
        clicked, events := FindAndClickPlayButton(dom);
      }
    }
  }
}
