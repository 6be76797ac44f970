# schloogy-book page script, modelled in Dafny

The schloogy-book site is a small glossary of made-up words. Every page
loads one script, `script.js`, which drives three widgets:

- an autocomplete search box. On every key-up it filters a fixed list of
  fourteen terms by case-insensitive prefix. It is meant to render the
  matches as links, with the typed prefix highlighted; as written, any
  match makes the render throw, so nothing is rendered (see
  "## Findings"). The arrow keys move a selection index. Enter is meant to
  copy the selected entry into the box, but the key-up renders first,
  which clears the selection, so Enter never finds one. A click elsewhere
  hides the results panel;
- a pronunciation button. The page's `data-page` identifier is looked up
  in a fixed sound-file table. Only when the button, the audio element and
  a table entry all exist is the click handler bound. The handler is
  meant to toggle: start the sound and light the button, or stop and
  rewind it and darken the button. As written, in a browser every click
  restarts the sound instead; see "## Findings";
- a hamburger menu. The hamburger toggles the menu and a dimming overlay
  together, and a click on the overlay closes both.

The model has five modules:

- `Wrappers` holds `Option`, `Result` and `Outcome`.
- `Text` holds the ASCII string functions the script calls:
  `toLowerCase`, `toUpperCase`, `trim`, `startsWith` and
  `split('/').pop()`.
- `Search` holds the pure side of the autocomplete widget:
  - the term list, the query, the prefix filter and its properties;
  - the display text, the highlighted span, the base URL and the link of
    each rendered entry;
  - the render as written;
  - JavaScript's truncating `%` and the arrow-key index arithmetic.
- `Sound` holds the sound-file table and lookup, and the state change one
  click makes to the button and its audio element, as a function on a
  `SoundState` value. It covers both the click as written in a browser and
  the intended toggle.
- `PageController` holds the class `Page`. Its fields stand in for the
  page-global variables and for the DOM state the handlers change:
  - the input value, `currentIndex`, whether the panel is shown, the
    rendered entries and their `autocomplete-active` flags;
  - the audio `src`, `paused` and rewind state, and the button's class and
    icon;
  - the menu's `show` class and the overlay's `active` class.

  There is one method per handler. Each method keeps the invariant
  `Valid()` and states its whole new state in terms of the `Search` and
  `Sound` functions.

The keyup handler always renders before it looks at the key, and
rendering resets the selection. So after a key-up with `n > 0` matches:

- ArrowDown always selects the first entry;
- ArrowUp always selects entry `(n - 2) mod n`, which is the second-to-last
  entry, or the only one when `n = 1`;
- Enter never finds anything selected and never changes the input.

`PageController.Page.KeyUp` proves this; it is how the code behaves, not a
defect.

JavaScript's `-1 % 1` is `-0`, and `items[-0]` is `items[0]`.
`Search.NextIndex` returns 0 in that case. On every index the handler can
reach, the result equals Dafny's Euclidean `(i + d + n) % n`.

Line 87 reads a name that is never declared. As written, any key-up with
a match throws a `ReferenceError` before anything is rendered; see
"## Findings". The as-written behaviour is modelled and proved as such.
The rest of the model uses the link the code evidently intends: the
`itemUrl` built at line 85.

Line 135 compares the audio's `src`, read back, with the button's
data-sound. A browser reads `src` back as an absolute URL, while every
data-sound is relative. So, as written, line 136 assigns `src` on every
click. By the media load algorithm of the HTML standard, that pauses the
sound and rewinds it, so line 139 always takes the play branch. A second
click restarts the sound instead of stopping it; see "## Findings". The
page controller uses the intended toggle.

## Model

| member | source | states |
|---|---|---|
| Text.Trim | script.js:31 | the result is the slice of the input that starts after its leading ASCII whitespace and is followed only by whitespace; it is empty exactly when the input is all whitespace, and otherwise neither end is whitespace |
| Text.LowerStr | script.js:31 | same length, and each character is the ASCII lower-case of the input character at that position |
| Text.LastSegment | script.js:64 | the last element of `split('/')` contains no '/' |
| Text.LastSegmentSuffix | script.js:64 | the last segment is a suffix of the path, and unless it is the whole path a '/' comes right before it |
| Search.Query | script.js:31 | the trimmed, lower-cased input is in lower case and has no whitespace at either end; it is empty exactly when the input is blank |
| Search.Filter | script.js:35-37 | the results are at most as many as the terms; every result is a term and matches (its lower-case form starts with the query) |
| Search.FilterComplete | script.js:35-37 | every term that matches is kept |
| Search.FilterIsSubsequence | script.js:35-37 | the results are the terms with some deleted, in their original order |
| Search.FilterAppend | script.js:35-37 | filtering a concatenation is the concatenation of the filtered parts |
| Search.SearchResultsExact | script.js:30-38 | a term is a result if and only if it is in the list, the query is non-empty, and the term's lower-case form starts with the query |
| Search.BlankInputNoResults | script.js:34 | a blank input lists nothing, even though every term starts with the empty query |
| Search.SearchResults | script.js:30-38 | a blank input gives no results; otherwise every result is a term from the list whose lower-case form starts with the query, and there are at most as many results as terms |
| Search.BoeExample | script.js:30-38 | "boe" and " BOE " both give Boem, Boemba, Boemy, in that order; a three-term list keeps only its two matches |
| Search.Capitalize | script.js:82 | same length; the first character is upper-cased and the rest is unchanged |
| Search.DisplayText | script.js:73-82 | the display text has the term's length, its first letter upper-cased and every later letter lower-cased |
| Search.DisplayTextShape | script.js:73-82 | the display text lower-cases back to the term's lower-case form, and displaying it again changes nothing |
| Search.Highlight | script.js:87-89 | a non-empty highlighted span is a prefix of the text that equals the query ignoring case; for a non-empty query, no span means the text does not start with the query ignoring case |
| Search.HighlightOfMatch | script.js:87-89 | for a matching term, the highlighted span is the display text's first \|query\| characters, and they spell the query |
| Search.BaseUrl | script.js:64-69 | the base URL is empty exactly when the last path segment is "woordenboek", and "woordenboek/" otherwise |
| Search.BaseUrlExamples | script.js:64-69 | the directory page without a trailing slash links with no prefix; the same directory with a trailing slash, or another page such as the site's index, links through "woordenboek/" |
| Search.Href | script.js:85 | the `itemUrl` string is the base URL, then the page name, then ".html" |
| Search.RenderItem | script.js:71-91 | an entry shows the term's display text and links to the term's lower-cased page under the base URL; for a matching term, the highlighted span is the display text's first \|query\| characters, and they spell the query |
| Search.RenderItems | script.js:71-91 | one entry per result, in result order; entry k renders result k |
| Search.RenderedResults | script.js:71-91 | entry k of a key-up's rendering shows result k's display text, highlights exactly the typed query, and links to the page named by the lower-cased term under the base URL |
| Search.RenderAsWritten | script.js:71-91 | as written, rendering fails with a ReferenceError for `lowerItemUrl` if and only if there is a result; with none it yields the empty list |
| Search.BoeRenderAsWritten | script.js:85-87 | for "boe", the as-written render throws, while the intended render lists three entries |
| Search.JsRemainder | script.js:113 | ECMAScript's `%`: the dividend is the quotient truncated toward zero, times n, plus the remainder; the remainder lies strictly between -n and n and carries the dividend's sign |
| Search.NextIndex | script.js:113 | from any index in [-1, n-1] and direction ±1, the new index lies in [0, n-1] and equals (i + d + n) mod n; down wraps from the last entry to the first, up wraps from the first to the last, and up from no selection lands on the second-to-last entry (the only one when n = 1) |
| Search.UpUndoesDown | script.js:113 | on a selected entry, one ArrowUp undoes one ArrowDown, and the reverse |
| Sound.SoundFor | script.js:157-180 | a missing or unknown page identifier finds no file; a known one finds the non-empty file "../woordenboek/uitspraak/<id>.mp3" |
| Sound.SoundMapPattern | script.js:160-176 | every entry of the table is the identifier's own file in the pronunciation folder |
| Sound.SoundPagesAreSearchTerms | script.js:160-176 | the identifiers with a sound file are exactly the searchable terms, lower-cased; in table order they are the terms, lower-cased, in list order |
| Sound.Load | script.js:136 | assigning src leaves the new src with the sound paused at its start; the button is untouched |
| Sound.ClickReporting | script.js:131-151 | given the value src reads back as: if it differs from data-sound, src becomes data-sound and the sound reloads; then a paused or reloaded sound plays from where it stands, with the button active and the on-icon; a playing sound that was not reloaded pauses and rewinds, with the button inactive and the off-icon |
| Sound.Click | script.js:131-151 | the intended click, where src reads back as assigned: src ends up as data-sound; a different sound, or a paused one, plays with the button active and the on-icon; the sound in place, if playing, pauses and rewinds with the button inactive and the off-icon |
| Sound.ClickIsConsistent | script.js:139-150 | after any click, as written or intended, the button is active with the on-icon exactly while the audio plays |
| Sound.ClickTwice | script.js:131-151 | two intended clicks on the sound in place restore the paused flag, and from a state where the button agrees with the audio they restore its class and icon; a different sound ends up paused; starting paused, they leave the off-icon |
| Sound.EndedThenClick | script.js:139-150 | once a playing clip ends, the button is lit over a paused sound; the next click plays it again and leaves the button lit with the same icon, and only the click after it stops the sound and shows the off-icon |
| Sound.TableFilesRelative | script.js:160-181 | every data-sound the page can set is a relative URL |
| Sound.BrowserClickPlays | script.js:135-144 | as written, when src reads back absolute and data-sound is relative, a click always reloads and plays the sound from its start, with the button active and the on-icon |
| Sound.BrowserTwoClicks | script.js:135-150 | as written, two clicks on the "boem" page from its load state leave the sound playing with the on-icon; the intended two clicks leave it paused |
| PageController.Flags | script.js:107-116 | n flags, of which exactly the one at the given index is set (none for -1) |
| PageController.FlagsMove | script.js:107-116 | taking the class off the selected entry (if any) and putting it on entry j leaves exactly entry j active |
| PageController.Page.constructor | script.js:154-191 | empty input, no selection, hidden and empty panel, menu and overlay off; the click handler is bound if and only if the button, the audio element and a table entry exist; when it is bound, data-sound and the preloaded src are that entry |
| PageController.Page.EditInput | script.js:29-31 | typing replaces only the input value that the next key-up reads |
| PageController.Page.RenderResults | script.js:52-96 | the panel is shown exactly when there are results; one entry per result, as rendered by `Search.RenderItems` with the base URL of the page's path; no selection and no active entry; nothing else changes |
| PageController.Page.NavigateResults | script.js:103-117 | with no entries nothing changes; otherwise the index becomes `NextIndex(old index, d, n)`, the class moves from the old entry to the new one, and when only the old entry (or none) was active, exactly the new one is |
| PageController.Page.SelectResult | script.js:120-128 | with an index in [0, n-1], the input takes that entry's text, the panel hides and the index resets to -1; otherwise nothing changes |
| PageController.Page.KeyUp | script.js:29-49 | the entries are the rendered results for the trimmed, lower-cased input; the panel shows exactly when there are results; the input never changes; the index is 0 after ArrowDown and the second-to-last entry after ArrowUp (with results), and -1 otherwise; exactly that entry is active |
| PageController.Page.KeyUpAsWritten | script.js:29-49 | as written, the handler throws exactly when the input has a match, leaving the search state untouched; otherwise it hides and clears the panel; so the panel never opens |
| PageController.Page.ClickDocument | script.js:195-199 | a click outside the input and the panel hides the panel and changes nothing else; any other click changes nothing |
| PageController.Page.HandleSoundButtonClick | script.js:131-151 | the button and audio state become `Sound.Click` of the old state and data-sound; src is data-sound afterwards, and the button is active exactly while the sound plays; with data-sound already in place, playback flips; nothing else changes |
| PageController.Page.AudioEnded | script.js:179-187 | the page listens for clicks only: when the sound plays to its end it is paused away from its start, the button keeps its class and icon, and a button that agreed with the audio now stays lit over a paused sound |
| PageController.Page.ClickSoundButton | script.js:179-187 | the button's own listener runs the handler only on a page that bound it, and there, with the preloaded sound in place, flips playback; otherwise nothing the handler touches changes |
| PageController.Page.ClickHamburger | script.js:202-213 | the hamburger's own listener, on a page with a hamburger: the menu and the overlay both flip; they stay equal either way, and nothing else the handler touches changes |
| PageController.Page.ClickOverlay | script.js:215-220 | the overlay's own listener: the menu and the overlay both end up off, and nothing else the handler touches changes |

Every `Page` method requires and ensures `Valid()`, which has four parts:

- the index stays in [-1, n-1];
- there is one active flag per entry;
- an open panel lists something;
- the menu's `show` class equals the overlay's `active` class.

The last part is the hamburger/overlay invariant: the two flags stay equal
over any sequence of handler calls.

## Left out

- DOM queries, `innerHTML` and the HTML markup are left out. The rendered
  list is a sequence of `Item` values. Each holds the text content, the
  highlighted span and the link as a base URL plus a page name.
  `Search.Href` gives the `itemUrl` string of line 85. The href markup
  of line 87, with its fixed `../schloogy-book/woordenboek/` prefix, is not
  modelled. In the source that markup never renders, because of the
  undeclared name.
- The colour from `getComputedStyle` and the inline style strings are
  presentation only.
- The highlight regex is built from the input without escaping. The model
  assumes the query has no regex metacharacters. With that assumption, the
  highlight is the display text's first |query| characters when those match
  the query case-insensitively.
- The `play()` promise, its rejection and `console.error` are left out.
  Play is modelled as succeeding.
- `currentTime` is a float in the source. The model records only whether
  playback is at its start.
- Case mapping and `trim` are limited to ASCII letters and ASCII
  whitespace. Non-ASCII case pairs, no-break space and the byte-order mark
  are not modelled.
- URL resolution is abstracted. `Sound.IsAbsoluteUrl` only asks for a
  leading letter and a ':'. The as-written click takes the value `src`
  reads back as a parameter, not the resolved URL itself. The media load
  algorithm is reduced to "paused, at the start". The page controller uses
  the intended click; the click as written exists only in `Sound`.
- Sound.ClickTwice, Sound.ClickIsConsistent and
  PageController.Page.HandleSoundButtonClick: only clicks change the
  sound state in these. The time that passes while the clip plays is not
  modelled, and the clip reaching its end appears only as `Sound.Ended`
  and `PageController.Page.AudioEnded`. The source does not listen for
  the end, so the button stays lit over a paused sound. The next click then
  plays again instead of stopping, as `Sound.EndedThenClick` shows. With a
  clip of about a second this is the usual case. "Two clicks restore" and
  "the button agrees with the audio" hold only while no clip has ended
  between the clicks. Restarting from the beginning after the end (the
  `play()` seek of the HTML standard) is not recorded: `atStart` stays
  false.
- One click runs two listeners. A click on the sound button, the
  hamburger or the overlay also bubbles to the document listener at line
  195. Its target is outside the input and the panel, so line 197 hides
  the results panel too. Each such click is the element's method
  (`ClickSoundButton`, `ClickHamburger`, `ClickOverlay`) followed by
  `ClickDocument(Elsewhere)`. Each method models only its own listener.
- Event-listener registration, the timing of `DOMContentLoaded` and
  `contains()` hit-testing are left out. The constructor does the page-load
  work at once. A click target is one of three cases: the input, the panel,
  or elsewhere.
- The model assumes the menu element exists. The source looks it up once
  and toggles it unconditionally.
- The model assumes the page has the search input and the results panel.
  On a page without `#search`, line 29 throws a TypeError while the script
  loads. Nothing after it is set up: the sound button, the outside-click
  handler, the hamburger and the overlay are never bound. The constructor
  does not model such a page.
- The audio element's initial `src` is the empty string on pages that do
  not bind the button.
- Sound.SoundFor: does not model keys inherited from `Object.prototype`
  (such as "constructor"). In the source, such keys would give a truthy
  function instead of nothing.

## Findings

| source | as written | input that shows it | evidently intended | confidence | as-written member | corrected member |
|---|---|---|---|---|---|---|
| script.js:87 | the link template reads `lowerItemUrl`, which is never declared, so the `map` callback throws a ReferenceError for the first result; the panel is never shown, and the key-up stops before the arrow keys or Enter are looked at | typing "boe" (any input with at least one match): `Search.BoeRenderAsWritten` | each entry links to `itemUrl`, built at line 85 from the base URL and the lower-cased term | not executed | Search.RenderAsWritten, PageController.Page.KeyUpAsWritten, Search.BoeRenderAsWritten | PageController.Page.RenderResults, PageController.Page.KeyUp, Search.RenderedResults |
| script.js:135 | the comparison reads `src` back, which a browser gives as an absolute URL, and compares it with the relative data-sound, so line 136 reloads on every click; the reload pauses and rewinds, so line 139 always plays and a second click restarts the sound instead of stopping it | a page with data-page "boem", clicked twice: `Sound.BrowserTwoClicks` | re-assign src only when the sound has changed, comparing like with like (the attribute value, or both URLs resolved), so each click toggles | not executed | Sound.ClickReporting, Sound.BrowserClickPlays, Sound.BrowserTwoClicks | Sound.Click, Sound.ClickTwice, PageController.Page.HandleSoundButtonClick |
