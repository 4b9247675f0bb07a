/** The content script's `Glimpse` object: the guard chain that decides
    what a mousedown does, and the `overlay` field, which is either an open
    preview or nothing. DOM elements are opaque tokens (natural numbers); the
    page's body is modelled only as the set of backdrop tokens this script
    has attached to it. */
module Overlay {
  import opened Common

  /** An open preview: its backdrop element and the URL it shows. */
  datatype Preview = Preview(backdrop: nat, url: string)

  /** The fields of a Glimpse object that its handlers change, plus the
      backdrops attached to the page and the supply of fresh element tokens. */
  datatype GlimpseState = GlimpseState(overlay: Option<Preview>, mounted: set<nat>, nextElement: nat)

  /** The page holds exactly the open preview's backdrop, if any, and that
      backdrop came from the token supply. */
  predicate WellFormed(st: GlimpseState)
  {
    && st.mounted == (if st.overlay.Some? then {st.overlay.value.backdrop} else {})
    && (st.overlay.Some? ==> st.overlay.value.backdrop < st.nextElement)
  }

  /** The parts of a mousedown event the handler reads: whether the target
      is inside a `.glimpse-overlay`, the modifier keys, the button, and the
      `href` of the closest enclosing anchor, if there is one. */
  datatype MouseDown = MouseDown(inOverlay: bool, ctrlKey: bool, metaKey: bool, button: int, anchorHref: Option<string>)

  /** What the handler does with an event: nothing; only prevent the
      default action (and stop propagation); or prevent it and open a
      preview of the URL. */
  datatype Gate = Ignore | Suppress | Open(url: string)

  predicate StartsWith(s: string, prefix: string)
  {
    |prefix| <= |s| && s[..|prefix|] == prefix
  }

  predicate IsWebUrl(s: string)
  {
    StartsWith(s, "http://") || StartsWith(s, "https://")
  }

  /** handleMouseDown's guard chain. */
  function Classify(e: MouseDown): (g: Gate)
    ensures e.inOverlay ==> g == Ignore
    ensures !(e.ctrlKey || e.metaKey) || e.button != 0 ==> g == Ignore
    ensures e.anchorHref.None? || e.anchorHref == Some("") ==> g == Ignore
    ensures g != Ignore <==>
              && !e.inOverlay && (e.ctrlKey || e.metaKey) && e.button == 0
              && e.anchorHref.Some? && e.anchorHref.value != ""
    ensures g.Open? <==> g != Ignore && e.anchorHref.Some? && IsWebUrl(e.anchorHref.value)
    ensures g.Open? ==> e.anchorHref == Some(g.url)
  {
    if e.inOverlay then Ignore
    else if !(e.ctrlKey || e.metaKey) || e.button != 0 then Ignore
    else match e.anchorHref
      case None => Ignore
      case Some(href) =>
        if href == "" then Ignore
        else if !StartsWith(href, "http://") && !StartsWith(href, "https://") then Suppress
        else Open(href)
  }

  // ---------------------------------------------------------------------
  // Transitions

  /** closeGlimpse: detach the open backdrop, if any, and forget it. */
  function Close(st: GlimpseState): (r: GlimpseState)
    ensures r.overlay.None? && r.nextElement == st.nextElement
    ensures st.overlay.None? ==> r == st
    ensures WellFormed(st) ==> WellFormed(r) && r.mounted == {}
  {
    match st.overlay
    case None => st
    case Some(p) => GlimpseState(None, st.mounted - {p.backdrop}, st.nextElement)
  }

  /** createGlimpse: close any open preview, then build a new one. Building
      stops before anything is attached when the URL does not parse (the
      favicon address needs its host name). */
  function Create(st: GlimpseState, url: string, urlParses: bool): (r: GlimpseState)
    ensures urlParses ==> r.overlay == Some(Preview(st.nextElement, url))
    ensures urlParses && WellFormed(st) ==> r.overlay.value.backdrop !in st.mounted
    ensures !urlParses ==> r.overlay.None?
    ensures WellFormed(st) ==> WellFormed(r)
    ensures r.nextElement >= st.nextElement
  {
    var closed := Close(st);
    if urlParses then
      GlimpseState(Some(Preview(closed.nextElement, url)), closed.mounted + {closed.nextElement}, closed.nextElement + 1)
    else closed
  }

  function OnMouseDown(st: GlimpseState, e: MouseDown, urlParses: bool): (r: GlimpseState)
    ensures !Classify(e).Open? ==> r == st
    ensures Classify(e).Open? && urlParses ==> r.overlay == Some(Preview(st.nextElement, e.anchorHref.value))
    ensures Classify(e).Open? && !urlParses ==> r.overlay.None?
  {
    match Classify(e)
    case Open(url) => Create(st, url, urlParses)
    case _ => st
  }

  function OnKeyDown(st: GlimpseState, key: string): (r: GlimpseState)
    ensures key != "Escape" ==> r == st
    ensures st.overlay.None? ==> r == st
    ensures key == "Escape" ==> r.overlay.None?
  {
    if key == "Escape" && st.overlay.Some? then Close(st) else st
  }

  /** The events the script reacts to, each delivered to completion before
      the next one. */
  datatype Event =
    | Press(e: MouseDown, urlParses: bool)   // mousedown on the document
    | Key(key: string)                       // keydown on the document
    | CloseButton                            // the overlay's close button
    | ExpandButton(sent: bool)               // the expand button; sent: the createTab message was delivered

  function Step(st: GlimpseState, ev: Event): (r: GlimpseState)
    ensures ev.Press? && !Classify(ev.e).Open? ==> r == st
    ensures ev.Key? && ev.key != "Escape" ==> r == st
    ensures ev.ExpandButton? && !ev.sent ==> r == st
    ensures ev.CloseButton? || ev == Key("Escape") || ev == ExpandButton(true) ==> r.overlay.None?
  {
    match ev
    case Press(e, ok) => OnMouseDown(st, e, ok)
    case Key(k) => OnKeyDown(st, k)
    case CloseButton => Close(st)
    case ExpandButton(sent) => if sent then Close(st) else st
  }

  function Run(st: GlimpseState, evs: seq<Event>): (r: GlimpseState)
    ensures evs == [] ==> r == st
    ensures |evs| > 0 && (evs[|evs| - 1].CloseButton? || evs[|evs| - 1] == Key("Escape")) ==> r.overlay.None?
    decreases |evs|
  {
    if evs == [] then st else Run(Step(st, evs[0]), evs[1..])
  }

  // ---------------------------------------------------------------------
  // Properties

  /** A press inside an open preview changes nothing and is not prevented. */
  lemma PressInsideOverlayIgnored(st: GlimpseState, e: MouseDown, ok: bool)
    requires e.inOverlay
    ensures Classify(e) == Ignore && Step(st, Press(e, ok)) == st
  {
  }

  /** Closing twice is closing once. */
  lemma CloseIdempotent(st: GlimpseState)
    ensures Close(Close(st)) == Close(st)
  {
  }

  /** Every single event keeps the page well formed: at most one backdrop
      attached, and it is the open preview's. */
  lemma StepWellFormed(st: GlimpseState, ev: Event)
    requires WellFormed(st)
    ensures WellFormed(Step(st, ev))
    ensures Step(st, ev).nextElement >= st.nextElement
  {
  }

  /** From any well-formed state, any sequence of events leaves at most one preview
      on the page, and opening one never reuses an earlier backdrop. */
  lemma {:induction false} RunWellFormed(st: GlimpseState, evs: seq<Event>)
    requires WellFormed(st)
    ensures WellFormed(Run(st, evs))
    ensures |Run(st, evs).mounted| <= 1
    ensures Run(st, evs).nextElement >= st.nextElement
    decreases |evs|
  {
    if evs != [] {
      StepWellFormed(st, evs[0]);
      RunWellFormed(Step(st, evs[0]), evs[1..]);
    }
  }

  /** A second preview replaces the first: the old backdrop leaves the page. */
  lemma OpenReplaces(st: GlimpseState, e: MouseDown, ok: bool)
    requires WellFormed(st) && st.overlay.Some? && Classify(e).Open? && ok
    ensures var r := Step(st, Press(e, ok));
            r.overlay.Some? && r.overlay.value.url == e.anchorHref.value &&
            st.overlay.value.backdrop !in r.mounted && r.mounted == {r.overlay.value.backdrop}
  {
  }

  // ---------------------------------------------------------------------
  // The content-script object

  class Glimpse {
    var overlay: Option<Preview>
    /** Backdrops this script has attached to the page. */
    var mounted: set<nat>
    /** The next fresh element token. */
    var nextElement: nat
    /** URLs of the createTab messages sent to the background worker. */
    var tabRequests: seq<string>

    function Snapshot(): GlimpseState
      reads this
    {
      GlimpseState(overlay, mounted, nextElement)
    }

    ghost predicate Valid()
      reads this
    {
      WellFormed(Snapshot())
    }

    constructor ()
      ensures Valid() && overlay.None? && mounted == {} && tabRequests == []
    {
      overlay := None;
      mounted := {};
      nextElement := 0;
      tabRequests := [];
    }

    /** Returns whether the event's default action was prevented. */
    method HandleMouseDown(e: MouseDown, urlParses: bool) returns (prevented: bool)
      requires Valid()
      modifies this
      ensures Valid()
      ensures prevented <==> Classify(e) != Ignore
      ensures Snapshot() == OnMouseDown(old(Snapshot()), e, urlParses)
      ensures tabRequests == old(tabRequests)
    {
      prevented := false;
      if e.inOverlay {
        return;
      }
      var isModifierPressed := e.ctrlKey || e.metaKey;
      if !isModifierPressed || e.button != 0 {
        return;
      }
      if e.anchorHref.None? || e.anchorHref.value == "" {
        return;
      }
      var href := e.anchorHref.value;
      prevented := true;
      if !StartsWith(href, "http://") && !StartsWith(href, "https://") {
        return;
      }
      CreateGlimpse(href, urlParses);
    }

    method HandleKeyDown(key: string)
      requires Valid()
      modifies this
      ensures Valid()
      ensures Snapshot() == OnKeyDown(old(Snapshot()), key)
      ensures tabRequests == old(tabRequests)
    {
      if key == "Escape" && overlay.Some? {
        CloseGlimpse();
      }
    }

    method CreateGlimpse(url: string, urlParses: bool)
      requires Valid()
      modifies this
      ensures Valid()
      ensures Snapshot() == Create(old(Snapshot()), url, urlParses)
      ensures tabRequests == old(tabRequests)
    {
      if overlay.Some? {
        CloseGlimpse();
      }
      CreateOverlayElements(url, urlParses);
    }

    /** Builds the overlay and attaches it, unless the URL fails to parse
        first. */
    method CreateOverlayElements(url: string, urlParses: bool)
      requires Valid() && overlay.None?
      modifies this
      ensures Valid()
      ensures Snapshot() == Create(old(Snapshot()), url, urlParses)
      ensures tabRequests == old(tabRequests)
    {
      if !urlParses {
        return;
      }
      var backdrop := nextElement;
      nextElement := nextElement + 1;
      mounted := mounted + {backdrop};
      overlay := Some(Preview(backdrop, url));
    }

    method CloseGlimpse()
      requires Valid()
      modifies this
      ensures Valid()
      ensures Snapshot() == Close(old(Snapshot()))
      ensures tabRequests == old(tabRequests)
    {
      if overlay.None? {
        return;
      }
      mounted := mounted - {overlay.value.backdrop};
      overlay := None;
    }

    /** expandToNewTab: ask the background worker for a new tab, and close
        the preview once the message was delivered. */
    method ExpandToNewTab(url: string, sent: bool)
      requires Valid()
      modifies this
      ensures Valid()
      ensures tabRequests == old(tabRequests) + [url]
      ensures Snapshot() == Step(old(Snapshot()), ExpandButton(sent))
    {
      tabRequests := tabRequests + [url];
      if sent {
        CloseGlimpse();
      }
    }
  }
}
