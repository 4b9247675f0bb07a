# LinkLens: a verified model of the preview extension's state handling

LinkLens is a browser extension. When the user Ctrl/Cmd-clicks a link, it opens
the link's target in an overlay ("glimpse") on top of the current page. It also
has a popup page where the user edits the extension's settings. This project
models, in Dafny, the three parts of the extension that hold state or make
decisions:

- **The settings popup** (`popup.js`, class `LinkLensSettings`).
  - `colour.dfy`: the `#rrggbb` colour parser `hexToRgb` and the darker hover shade.
  - `settings.dfy`:
    - the settings object, built by overlaying the stored object on the defaults;
    - the toggle, modifier-key, colour and slider handlers that change it in place;
    - the reset;
    - the slider value labels and the theme CSS properties that the page writes.
- **The content script** (`content.js`, class `Glimpse`), in `overlay.dfy`.
  - The guard chain of `handleMouseDown`. It decides whether a mousedown is ignored, only has its default action prevented, or opens a preview.
  - The `overlay` field, which holds either one open preview or none.
  - `createGlimpse`, `closeGlimpse`, the Escape key and the expand button.
- **The background worker** (`background.js`), in `background.dfy`.
  - The `glimpseTabData` Map from an origin tab id to its hidden tab.
  - The deletions made by `closeHiddenTab`, `expandHiddenTab` and the `chrome.tabs.onRemoved` listener.
  - The `onMessage` switch that gives each action its reply.

`common.dfy` holds an `Option` type and JavaScript's conversion of an integer
Number below 10^21 in magnitude to decimal text. The popup's labels and CSS text use that conversion.

Each stateful object is a Dafny `class` with the source's fields. Each of its
methods states its new state as a pure function of the old state. The
properties are proved as lemmas about those functions:

- the parser's round trip and case-insensitivity;
- the key-by-key merge;
- "at most one overlay";
- "first match, then break";
- "nothing else is deleted".

DOM elements are opaque tokens. Calls into `chrome.tabs` are recorded in a
request log, and their outcomes are inputs to the methods. Storage reads are
inputs too.

Two things about `background.js` as written:

- Nothing in `background.js` inserts into `glimpseTabData`: there is no `set` call. The table therefore stays empty at run time. `Background.Worker.constructor` starts from an empty table, as the source does. All the other members are stated and proved for any table whose keys are distinct.
- No `onMessage` case calls `expandHiddenTab`, so it is unreachable. It is still modelled (`Background.Worker.ExpandHiddenTab`).

The source files modelled here contain no link-preload cache or preload
scheduler (those belong to other revisions of the extension), so neither is
modelled.

## Model

| member | source | states |
|---|---|---|
| `Common.DecimalRoundTrip` | popup.js:197 | The decimal text of any integer, as `String(n)` writes it, parses back to the integer. |
| `Common.DecimalInjective` | popup.js:197 | Distinct integers have distinct decimal texts. |
| `Colour.HexToRgb` | popup.js:227-234 | Returns a colour exactly when the input is six hex digits of either case, with an optional leading `#`, and nothing else; otherwise None (null). Every channel returned is in 0..255. |
| `Colour.HexCanonical` | popup.js:228-233 | Each channel is the value of its own two-digit pair, in r, g, b order. Printing the parsed colour gives back the input's digits, lower-cased, after a `#`. |
| `Colour.HexRoundTrip` | popup.js:227-234 | Every colour with byte channels is parsed back exactly from its `#rrggbb` spelling. |
| `Colour.HexCaseInsensitive` | popup.js:228 | Two spellings that differ only in the case of their digits parse to the same colour. |
| `Colour.DarkerChannel` | popup.js:222 | `Math.max(0, c - 20)`: never negative, never above a non-negative input, and either 0 or exactly 20 below the input (exactly 20 below whenever the input is at least 20). |
| `Colour.RgbCss` | popup.js:222 | The text has the form `rgb(...)`. |
| `Colour.RgbCssInjective` | popup.js:222 | Two colours with non-negative channels (every darker shade has them) give different `rgb(r, g, b)` texts. |
| `Colour.Darker` | popup.js:222 | For byte channels, each darker channel lies in 0..235 and does not exceed the original channel. |
| `Settings.DefaultSettings` | popup.js:3-13 | The nine default keys, with themeColor `#667eea`. `applyThemeToHeader` is not among them. |
| `Settings.Merge` | popup.js:34 | `{...defaults, ...stored}`: the keys of both; a stored key overrides its default; a key absent from storage keeps its default. |
| `Settings.StoredObject` | popup.js:30-48 | The object loaded is the sync store's whenever the sync read returns, even if it found nothing. When the sync read throws, it is the local store's object, or nothing if the local read throws too. |
| `Settings.Loaded` | popup.js:30-48 | If no stored object is found, the settings are unchanged. Otherwise every key reads as its stored value if it has one, and as its default if not. |
| `Settings.LoadedKeyByKey` | popup.js:34 | Key by key, the merged settings give the stored value if stored and the default otherwise. |
| `Settings.Toggled` | popup.js:91 | The toggled key becomes the boolean negation of its truthiness. Every other key is unchanged and no other key is added. |
| `Settings.ToggleMissingKey` | popup.js:86-92 | A key missing from the settings reads as undefined. The first click sets it to true and a second click sets it to false. |
| `Settings.ApplyThemeToHeaderHasNoDefault` | popup.js:86-91 | `applyThemeToHeader` is a toggle with no default, so toggling it from the defaults gives true. |
| `Settings.ToggleTwice` | popup.js:91 | Two clicks restore a boolean setting exactly. For any other value they restore its truthiness. |
| `Settings.AutoCloseLabel` | popup.js:197 | The label is `'Off'` exactly when the value is loosely equal to 0. Otherwise it is the value's text followed by `s`. |
| `Settings.AutoCloseLabelOfNumber` | popup.js:119-121 | For a slider number n, the label is `'Off'` exactly when n = 0. Otherwise it is `n + 's'`, and its text before the `s` parses back to n. |
| `Settings.PercentLabelOfNumber` | popup.js:191 | For a slider number n, the window-size and opacity labels are `n + '%'`, and the text before the `%` parses back to n. |
| `Settings.SliderLabelInjective` | popup.js:187-205 | On every slider, distinct numbers show distinct labels. |
| `Settings.FindFrom` | popup.js:210 | Returns the first position at or after i where the pattern occurs, or None when it occurs nowhere after i. |
| `Settings.FindFromFirst` | popup.js:210 | Any occurrence with no earlier occurrence after i is the one `FindFrom` returns (what `String.replace` with a string pattern relies on). |
| `Settings.ValueElementId` | popup.js:208-214 | The element written is `<id>Value` when the page has it. Otherwise it is the id with its first `Timer` replaced by `Value`, when the page has that. Otherwise nothing is written. A result is always an element of the page. |
| `Settings.ReplaceFirst` | popup.js:210 | `String.replace` with a string pattern: with no occurrence the id is returned unchanged. Otherwise only the first occurrence is replaced: the text before it and the text after it are kept. |
| `Settings.AutoCloseValueElement` | popup.js:208-210 | Without an `autoCloseTimerValue` element, the autoClose label goes to `autoCloseValue`. |
| `Settings.LabelWritten` | popup.js:208-214 | Only the chosen value element receives the text, and no other element is added. Every other element's text is unchanged. |
| `Settings.SlidersWritten` | popup.js:187-206 | Refreshing the sliders never removes a label and only writes elements of the page. |
| `Settings.SlidersWrittenKeeps` | popup.js:187-206 | An element that no slider writes keeps its text, and is not created. |
| `Settings.SlidersWrittenLast` | popup.js:187-206 | An element holds the label of the last slider on the page that writes it. |
| `Settings.PageValueElements` | popup.js:208-214 | On the popup page (the three sliders, `windowSizeValue`, `autoCloseValue`, `backgroundOpacityValue`, no `autoCloseTimerValue`), each slider writes exactly its own value element. |
| `Settings.PageSliderLabels` | popup.js:187-206 | On the popup page, `windowSizeValue` shows the window size followed by `%`, `autoCloseValue` shows the autoClose label, and `backgroundOpacityValue` shows the opacity followed by `%`. |
| `Settings.DefaultSliderLabels` | popup.js:187-206 | With the default settings, the popup page shows `80%`, `Off` and `60%`. |
| `Settings.ThemeStyle` | popup.js:216-225 | `--primary-color` is always set to the colour. `--primary-dark` is set to the darker shade when the colour parses. When it does not parse, `--primary-dark` is not written. No other property changes. |
| `Settings.DefaultThemeShade` | popup.js:220-223 | The default colour `#667eea` parses to (102, 126, 234), and its hover shade is (82, 106, 214). |
| `Settings.LinkLensSettings.constructor` | popup.js:2-17 | The current settings start as a copy of the defaults. |
| `Settings.LinkLensSettings.Init` | popup.js:19-28 | Load, then refresh the slider labels and theme properties from the loaded settings. |
| `Settings.LinkLensSettings.LoadSettings` | popup.js:30-48 | The new settings are `Loaded` of the old settings and the two storage reads. |
| `Settings.LinkLensSettings.SaveSettings` | popup.js:50-73 | Appends the current settings to the log of objects written to storage and broadcast to the tabs. |
| `Settings.LinkLensSettings.SelectModifierKey` | popup.js:77-83 | Only `modifierKey` changes, to the button's key. |
| `Settings.LinkLensSettings.ToggleClick` | popup.js:86-95 | The new settings are `Toggled(old, id)`, for a toggle present on the page. |
| `Settings.LinkLensSettings.SelectColour` | popup.js:98-105 | Only `themeColor` changes among the settings. The theme properties become `ThemeStyle` of the new colour. |
| `Settings.LinkLensSettings.SliderInput` | popup.js:108-131 | The slider's setting becomes the number. Its value element shows that slider's label for the number. |
| `Settings.LinkLensSettings.UpdateSliderValue` | popup.js:208-214 | The labels become `LabelWritten` of the old labels. |
| `Settings.LinkLensSettings.UpdateSliders` | popup.js:187-206 | Each slider present on the page, in order, gets the label for its current setting. |
| `Settings.LinkLensSettings.UpdateThemeColor` | popup.js:216-225 | The style becomes `ThemeStyle(old, color)`. |
| `Settings.LinkLensSettings.UpdateUI` | popup.js:143-149 | Slider labels and theme properties are refreshed from the current settings. |
| `Settings.LinkLensSettings.ResetToDefaults` | popup.js:236-246 | Afterwards the current settings equal the defaults, the defaults are saved once, and labels and theme show the defaults. |
| `Overlay.Classify` | content.js:38-69 | Returns Ignore in three cases: the target is inside the overlay; neither Ctrl nor Meta is held or the button is not 0; there is no enclosing anchor or its href is empty. Returns Open exactly when, in addition to passing those guards, the href starts with `http://` or `https://`. Any other left click with a modifier and a non-empty href is suppressed without opening. |
| `Overlay.Close` | content.js:213-220 | Afterwards no overlay is open. With none open this is a no-op. On a well-formed page the backdrop is detached and nothing stays attached. |
| `Overlay.CloseIdempotent` | content.js:213-219 | Closing twice is the same as closing once. |
| `Overlay.Create` | content.js:77-86 | Any open preview is closed first. When the URL parses, the new preview shows the URL on a fresh backdrop. When it does not parse, no preview is left open. The page stays well formed. |
| `Overlay.OnMouseDown` | content.js:38-69 | Only an Open decision changes the state. The preview then shows the anchor's href when `new URL(href)` parses it; when that throws, no preview is left open. |
| `Overlay.OnKeyDown` | content.js:71-75 | Escape closes an open preview. Other keys, or Escape with nothing open, change nothing. |
| `Overlay.PressInsideOverlayIgnored` | content.js:40-42 | A press inside the overlay is neither prevented nor changes anything. |
| `Overlay.StepWellFormed` | content.js:77-86 | Every event keeps the page well formed. Element tokens are never reused. |
| `Overlay.RunWellFormed` | content.js:179 | After any sequence of events, at most one backdrop is attached and it belongs to the open preview. |
| `Overlay.OpenReplaces` | content.js:79-85 | Opening while a preview is open detaches the old backdrop, leaving only the new one. |
| `Overlay.Glimpse.constructor` | content.js:3-12 | Starts with no overlay and nothing attached. |
| `Overlay.Glimpse.HandleMouseDown` | content.js:38-69 | Prevents the default action exactly when `Classify` does not ignore the event. The new state is `OnMouseDown` of the old one. |
| `Overlay.Glimpse.HandleKeyDown` | content.js:71-75 | The new state is `OnKeyDown` of the old one. |
| `Overlay.Step` | content.js:17-20 | Delivering one event: a press that does not open, a key other than Escape, and an expand click whose message was not delivered change nothing. The close button, Escape and a delivered expand leave no preview. |
| `Overlay.Run` | content.js:17-20 | No events change nothing. A sequence ending in the close button or Escape leaves no preview. |
| `Overlay.Glimpse.CreateGlimpse` | content.js:77-86 | The new state is `Create` of the old one. |
| `Overlay.Glimpse.CreateOverlayElements` | content.js:88-180 | Attaches a fresh backdrop and stores it as the overlay, unless the URL fails to parse first. |
| `Overlay.Glimpse.CloseGlimpse` | content.js:213-220 | The new state is `Close` of the old one. |
| `Overlay.Glimpse.ExpandToNewTab` | content.js:200-211 | Sends one createTab request. Closes the preview only if the message was delivered. |
| `Background.FirstHidden` | background.js:109-114 | Returns the first entry in iteration order whose hidden tab is the given tab, or None when no entry has it. |
| `Background.DeleteSound` | background.js:96 | `Map.delete` on a table with distinct keys removes exactly the entry for the key. It keeps every other entry, adds nothing, and the keys stay distinct. |
| `Background.RemovalRequests` | background.js:117-123 | The handler requests at most one tab removal. |
| `Background.AfterHiddenScan` | background.js:109-114 | With no matching entry the table is unchanged. Otherwise exactly the first match is dropped, the entries before it keep their place and those after it move up by one. |
| `Background.AfterTabRemoved` | background.js:107-124 | The handler removes at most two entries. It changes nothing when the closed tab is neither a key nor a hidden tab. |
| `Background.HiddenScanDeletesFirstOnly` | background.js:109-114 | The scan deletes exactly one entry, the first match, or nothing when no entry matches. |
| `Background.TabRemovedDeletesOnlyThose` | background.js:107-124 | onRemoved deletes no entry other than the first hidden-tab match and the entry keyed by the closed tab. Afterwards no entry is keyed by the closed tab, nothing is added, the keys stay distinct, and at most two entries go. |
| `Background.FirstMatchThenBreak` | background.js:109-114 | When two entries share the closed hidden tab, only the first is deleted. |
| `Background.ScanKeepsOrigin` | background.js:117-118 | An entry keyed by the closed tab whose hidden tab is another tab survives the scan and is the one `get` returns. |
| `Background.OriginClosedRemovesHidden` | background.js:117-123 | When the closed tab is a key whose entry's hidden tab is a different tab, removal of that hidden tab is requested and the entry is deleted. (When the entry's own hidden tab is the closed tab, the scan deletes it first and no removal is requested.) |
| `Background.OwnHiddenTabScannedFirst` | background.js:109-123 | When the closed tab is both an entry's key and that entry's hidden tab, the scan deletes the entry and no removal is requested. |
| `Background.CreateTabEffect` | background.js:30-43 | One create request is made and the table is unchanged. The reply is success with the new tab's id, or failure with the thrown message. |
| `Background.CloseHiddenEffect` | background.js:87-104 | A missing key replies success with the table unchanged. A present key requests removal of its hidden tab and then either deletes the entry and replies success, or keeps the table and replies the error. |
| `Background.ExpandHiddenEffect` | background.js:65-85 | A missing key replies failure `'No hidden tab found'` with the table unchanged. A present key requests activation and then either deletes the entry and replies success, or keeps the table and replies the error. |
| `Background.SuccessfulDeleteRemovesKey` | background.js:65-104 | A successful close or expand leaves no entry for the key, shrinks the table by exactly one and keeps the keys distinct. |
| `Background.FetchReply` | background.js:45-63 | Replies with the body exactly when the response status is 200-299. A failed fetch replies with its own message. Any other status replies `HTTP error! Status: <status>`. |
| `Background.Dispatch` | background.js:4-28 | `getCurrentTabId` replies the sender's tab id. An unknown action replies `{success:false, error:'Unknown action'}`. Neither changes the table or keeps the channel open. The three asynchronous actions keep the channel open. Only `closeGlimpse` can change the table. |
| `Background.DispatchOnlyShrinks` | background.js:4-28 | No message adds an entry, and every message keeps the keys distinct. |
| `Background.Worker.constructor` | background.js:2 | The table starts empty. |
| `Background.Worker.OnMessage` | background.js:4-28 | The reply, the channel flag, the new table and the requests made are those of `Dispatch`. |
| `Background.Worker.CreateTab` | background.js:30-43 | Reply, table and requests are as in `CreateTabEffect`. |
| `Background.Worker.CloseHiddenTab` | background.js:87-104 | Reply, table and requests are as in `CloseHiddenEffect`. |
| `Background.Worker.ExpandHiddenTab` | background.js:65-85 | Reply, table and requests are as in `ExpandHiddenEffect`. |
| `Background.Worker.OnRemoved` | background.js:107-124 | The loop with `break` leaves the table as `AfterTabRemoved` of the old one and requests `RemovalRequests`. |

## Left out

- proxy.js is not part of this model. It parses a fetched page with DOMParser and replaces the document, driven by a message round trip: I/O and DOM plumbing.
- The network request in `fetchForGlimpse` is not modelled. Its outcome (network error, or status and body) is an input to `Background.FetchReply`.
- All `chrome.*` calls are not modelled: storage reads and writes, `tabs.create`, `tabs.update`, `tabs.remove`, `tabs.query`, `tabs.sendMessage` and `runtime.sendMessage`.
  - Storage reads are inputs (`StorageRead`).
  - Tab calls are entries in a request log, and their outcomes are inputs.
  - Saving is one log entry. It does not separate the sync write, the local write and the broadcast, or their failures.
- DOM work is not modelled: building the overlay elements, `showError`, the favicon, iframe load events, `classList` updates, slider `.value` assignment, and `showStatus` with its timer.
  - `updateKeySelection`, `updateToggles`, `updateToggle` and `updateColorSelection` only change CSS classes, so they are left out.
- `Overlay.Glimpse.CreateOverlayElements`: `new URL(url)` is a library call. Whether it throws is the `urlParses` input.
- `encodeURIComponent` and `parseInt` are library calls. A slider event supplies the slider's integer value directly, and its decimal text is what the source's string `value` holds.
- `Settings.AutoCloseLabel`: loose equality with 0 is modelled for numbers, booleans, `""` and `"0"`. Other strings that JavaScript also treats as 0 (`" 0"`, `"0.0"`, `"0x0"`) count as non-zero here. Such strings can only come from a hand-edited storage entry.
- `Settings.LinkLensSettings.UpdateUI`: a non-string `themeColor` is passed as its string conversion. CSS's special handling of `null` in `setProperty` is not modelled.
- `Common.Decimal` (and so `Settings.Show`): integers of magnitude 10^21 or more, which JavaScript prints in exponent form (`1e+21`), are printed here with all their digits. The sliders never produce them; only a hand-edited storage entry could.
- Numbers in the settings are integers. Fractional values and NaN are not modelled, and nested stored objects and arrays are one opaque truthy `Obj` value.
- The popup's keyboard shortcuts and `window.close`, `init`'s catch path (only reachable through DOM errors), and console logging are not modelled.
- `getCurrentTabId` in content.js is not modelled: it needs a message round trip and falls back to the clock. The drag and resize fields are never used.
- Interleaving of handlers across an `await` is not modelled. For example, `onRemoved` could fire while `closeHiddenTab` waits on `tabs.remove`. Each handler runs to completion, with the awaited call's outcome as an input.
