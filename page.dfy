/** The page controller: the page-global and DOM state the handlers read
    and write, held as the fields of one object, with one method per
    handler. */
module PageController {
  import opened Wrappers
  import opened Search
  import Sound

  /** The key a key-up event reports, as far as the handler tells keys apart. */
  datatype Key = ArrowDown | ArrowUp | Enter | OtherKey

  /** Where a click on the document lands, as the outside-click handler
      tells targets apart. */
  datatype Target = InSearchInput | InResults | Elsewhere

  /** The autocomplete state: the input's value, currentIndex, whether the
      results panel is displayed, the rendered entries and, entry by
      entry, whether it carries the 'autocomplete-active' class. */
  datatype SearchView = SearchView(input: string, index: int, shown: bool,
                                   items: seq<Item>, active: seq<bool>)

  /** The class flags of n entries of which only the one at `on` is active
      (none when `on` is -1). */
  function Flags(n: nat, on: int): (r: seq<bool>)
    ensures |r| == n
    ensures forall k :: 0 <= k < n ==> (r[k] <==> k == on)
  {
    seq(n, k => k == on)
  }

  /** Moving the active class from entry i (or from none) to entry j leaves
      exactly entry j active. */
  lemma FlagsMove(n: nat, i: int, j: int)
    requires -1 <= i < n && 0 <= j < n
    ensures (if i >= 0 then Flags(n, i)[i := false] else Flags(n, i))[j := true] == Flags(n, j)
  {
  }

  /** The nav-menu 'show' class and the overlay 'active' class. */
  datatype NavView = NavView(show: bool, overlay: bool)

  class Page {
    // Fixed when the page loads.
    const searchable: seq<string>
    const pathname: string
    const hasHamburger: bool
    /** Whether the click handler was bound to the sound button. */
    const soundBound: bool
    /** The button's data-sound attribute, when bound. */
    const dataSound: string

    // Search box and results panel.
    var inputValue: string
    var currentIndex: int
    var panelShown: bool
    var items: seq<Item>
    var active: seq<bool>

    // Sound button and audio element.
    var audioSrc: string
    var paused: bool
    var atStart: bool
    var buttonActive: bool
    var buttonIcon: string

    // Navigation menu and overlay.
    var navShown: bool
    var overlayActive: bool

    /** The selection index stays in [-1, n-1] over the n rendered entries,
        there is one active flag per rendered entry, an open panel always
        lists something, and the menu and overlay are shown together. */
    ghost predicate Valid()
      reads this
    {
      && -1 <= currentIndex < |items|
      && |active| == |items|
      && (panelShown ==> items != [])
      && navShown == overlayActive
    }

    ghost function SearchState(): SearchView
      reads this
    {
      SearchView(inputValue, currentIndex, panelShown, items, active)
    }

    ghost function SoundView(): Sound.SoundState
      reads this
    {
      Sound.SoundState(audioSrc, paused, atStart, buttonActive, buttonIcon)
    }

    ghost function NavState(): NavView
      reads this
    {
      NavView(navShown, overlayActive)
    }

    /** Page load: the top-level script with its searchable list, the fresh
        overlay, and the DOMContentLoaded handler that binds the sound
        button only when the button and the audio element exist and the
        page identifier has a sound file. */
    constructor (pathname: string, hasHamburger: bool, hasSoundButton: bool,
                 hasAudio: bool, pageId: Option<string>)
      ensures Valid()
      ensures this.searchable == Searchable && this.pathname == pathname
      ensures this.hasHamburger == hasHamburger
      ensures SearchState() == SearchView("", -1, false, [], [])
      ensures soundBound <==> hasSoundButton && hasAudio && Sound.SoundFor(pageId).Some?
      ensures soundBound ==> dataSound == Sound.SoundFor(pageId).value && audioSrc == dataSound
      ensures !soundBound ==> audioSrc == ""
      ensures paused && atStart && !buttonActive && buttonIcon == ""
      ensures NavState() == NavView(false, false)
    {
      searchable := Searchable;
      this.pathname := pathname;
      this.hasHamburger := hasHamburger;
      var file := Sound.SoundFor(pageId);
      var bound := hasSoundButton && hasAudio && file.Some?;
      soundBound := bound;
      dataSound := if bound then file.value else "";
      inputValue, currentIndex, panelShown, items, active := "", -1, false, [], [];
      audioSrc := if bound then file.value else "";
      paused, atStart, buttonActive, buttonIcon := true, true, false, "";
      navShown, overlayActive := false, false;
    }

    /** The user edits the text box; the browser updates its value before
        the key-up event fires. */
    method EditInput(value: string)
      requires Valid()
      modifies this
      ensures Valid()
      ensures SearchState() == old(SearchState()).(input := value)
      ensures SoundView() == old(SoundView()) && NavState() == old(NavState())
    {
      inputValue := value;
    }

    /** renderResults with the link the code evidently intends (itemUrl):
        no results hide the panel and clear the list; results show the
        panel with one entry per result. Either way the selection resets
        and no entry is active. */
    method RenderResults(results: seq<string>, input: string)
      requires Valid()
      modifies this
      ensures Valid()
      ensures panelShown == (results != [])
      ensures items == RenderItems(results, input, BaseUrl(pathname))
      ensures |items| == |results|
      ensures currentIndex == -1 && active == Flags(|results|, -1)
      ensures inputValue == old(inputValue)
      ensures SoundView() == old(SoundView()) && NavState() == old(NavState())
    {
      if |results| == 0 {
        panelShown := false;
        items := [];
        active := [];
        currentIndex := -1;
      } else {
        var baseUrl := BaseUrl(pathname);
        panelShown := true;
        items := RenderItems(results, input, baseUrl);
        active := Flags(|results|, -1);
        currentIndex := -1;
      }
    }

    /** navigateResults: with no entries nothing changes; otherwise the
        index moves circularly by one and the active class moves with it. */
    method NavigateResults(direction: int)
      requires Valid() && (direction == 1 || direction == -1)
      modifies this
      ensures Valid()
      ensures old(items) == [] ==> SearchState() == old(SearchState())
      ensures old(items) != [] ==>
                && currentIndex == NextIndex(old(currentIndex), direction, |old(items)|)
                && active == (if old(currentIndex) >= 0 then old(active)[old(currentIndex) := false]
                              else old(active))[currentIndex := true]
      ensures old(items) != [] && old(active) == Flags(|items|, old(currentIndex)) ==>
                active == Flags(|items|, currentIndex)
      ensures items == old(items) && panelShown == old(panelShown) && inputValue == old(inputValue)
      ensures SoundView() == old(SoundView()) && NavState() == old(NavState())
    {
      var n := |items|;
      if n == 0 {
        return;
      }
      if currentIndex >= 0 {
        active := active[currentIndex := false];
      }
      ghost var from := currentIndex;
      currentIndex := NextIndex(currentIndex, direction, n);
      active := active[currentIndex := true];
      FlagsMove(n, from, currentIndex);
    }

    /** selectResult: with an entry selected, its text goes into the input,
        the panel hides and the selection resets; otherwise nothing changes. */
    method SelectResult()
      requires Valid()
      modifies this
      ensures Valid()
      ensures old(0 <= currentIndex < |items|) ==>
                && inputValue == old(items[currentIndex].text)
                && !panelShown && currentIndex == -1
                && items == old(items) && active == old(active)
      ensures !old(0 <= currentIndex < |items|) ==> SearchState() == old(SearchState())
      ensures SoundView() == old(SoundView()) && NavState() == old(NavState())
    {
      var n := |items|;
      if currentIndex >= 0 && currentIndex < n {
        var selected := items[currentIndex].text;
        inputValue := selected;
        panelShown := false;
        currentIndex := -1;
      }
    }

    /** The key-up handler, with the corrected render. Rendering always
        comes first and resets the selection, so ArrowDown always selects
        the first entry, ArrowUp always the second-to-last one (the only
        one when there is one), and Enter finds nothing selected and never
        changes the input. */
    method KeyUp(key: Key)
      requires Valid()
      modifies this
      ensures Valid()
      ensures var results := SearchResults(searchable, old(inputValue));
              var n := |results|;
              && items == RenderItems(results, Query(old(inputValue)), BaseUrl(pathname))
              && panelShown == (n > 0)
              && inputValue == old(inputValue)
              && currentIndex == (if n > 0 && key == ArrowDown then 0
                                  else if n > 0 && key == ArrowUp then (if n >= 2 then n - 2 else 0)
                                  else -1)
              && active == Flags(n, currentIndex)
      ensures SoundView() == old(SoundView()) && NavState() == old(NavState())
    {
      var input := Query(inputValue);
      var results: seq<string> := [];
      if |input| > 0 {
        results := Filter(searchable, input);
      }
      RenderResults(results, input);
      match key {
        case ArrowDown => NavigateResults(1);
        case ArrowUp => NavigateResults(-1);
        case Enter => SelectResult();
        case OtherKey =>
      }
    }

    /** The key-up handler as written: with any match, renderResults throws
        a ReferenceError at the undeclared `lowerItemUrl` before it touches
        the page, and the handler stops before the key is looked at. Only
        the no-match path runs to the end, so the panel never opens. */
    method KeyUpAsWritten(key: Key) returns (outcome: Outcome<JsError>)
      requires Valid()
      modifies this
      ensures Valid()
      ensures outcome.Fail? <==> SearchResults(searchable, old(inputValue)) != []
      ensures outcome.Fail? ==>
                outcome.error == ReferenceError("lowerItemUrl") && SearchState() == old(SearchState())
      ensures outcome.Pass? ==>
                SearchState() == SearchView(old(inputValue), -1, false, [], [])
      ensures !old(panelShown) ==> !panelShown
      ensures SoundView() == old(SoundView()) && NavState() == old(NavState())
    {
      var input := Query(inputValue);
      var results: seq<string> := [];
      if |input| > 0 {
        results := Filter(searchable, input);
      }
      if results != [] {
        var content := RenderAsWritten(results, input, BaseUrl(pathname));
        outcome := Fail(content.error);
        return;
      }
      RenderResults(results, input);
      match key {
        case ArrowDown => NavigateResults(1);
        case ArrowUp => NavigateResults(-1);
        case Enter => SelectResult();
        case OtherKey =>
      }
      outcome := Pass;
    }

    /** The document click handler: a click outside the input and the
        results panel hides the panel and changes nothing else. */
    method ClickDocument(target: Target)
      requires Valid()
      modifies this
      ensures Valid()
      ensures target == Elsewhere ==> SearchState() == old(SearchState()).(shown := false)
      ensures target != Elsewhere ==> SearchState() == old(SearchState())
      ensures SoundView() == old(SoundView()) && NavState() == old(NavState())
    {
      if target == Elsewhere {
        panelShown := false;
      }
    }

    /** handleSoundButtonClick, with play() succeeding and src read back
        as it was assigned. The page preloads data-sound and every click
        leaves it in place, so from page load on no click reloads and each
        one toggles playback. */
    method HandleSoundButtonClick()
      requires Valid() && soundBound
      modifies this
      ensures Valid()
      ensures SoundView() == Sound.Click(old(SoundView()), dataSound)
      ensures audioSrc == dataSound && buttonActive == !paused
      ensures old(audioSrc) == dataSound ==> paused == !old(paused)
      ensures SearchState() == old(SearchState()) && NavState() == old(NavState())
    {
      var soundSrc := dataSound;
      if audioSrc != soundSrc {
        audioSrc := soundSrc;
        paused, atStart := true, true;
      }
      if paused {
        paused := false;
        buttonActive := true;
        buttonIcon := Sound.OnSoundIcon;
      } else {
        paused := true;
        atStart := true;
        buttonActive := false;
        buttonIcon := Sound.OffSoundIcon;
      }
    }

    /** The audio playing to its end, an event the page does not listen
        for: the sound is paused away from its start and the button keeps
        its class and icon. */
    method AudioEnded()
      requires Valid() && !paused
      modifies this
      ensures Valid()
      ensures SoundView() == Sound.Ended(old(SoundView()))
      ensures old(Sound.Consistent(SoundView())) ==> buttonActive && !Sound.Consistent(SoundView())
      ensures SearchState() == old(SearchState()) && NavState() == old(NavState())
    {
      paused, atStart := true, false;
    }

    /** A click on the sound button reaches the handler only when the page
        bound it. */
    method ClickSoundButton()
      requires Valid()
      modifies this
      ensures Valid()
      ensures soundBound ==> SoundView() == Sound.Click(old(SoundView()), dataSound)
      ensures soundBound && old(audioSrc) == dataSound ==> paused == !old(paused)
      ensures !soundBound ==> SoundView() == old(SoundView())
      ensures SearchState() == old(SearchState()) && NavState() == old(NavState())
    {
      if soundBound {
        HandleSoundButtonClick();
      }
    }

    /** The hamburger handler, bound only when the page has a hamburger:
        it flips both the menu and the overlay. */
    method ClickHamburger()
      requires Valid()
      modifies this
      ensures Valid()
      ensures hasHamburger ==> NavState() == NavView(!old(navShown), !old(overlayActive))
      ensures !hasHamburger ==> NavState() == old(NavState())
      ensures navShown == overlayActive
      ensures SearchState() == old(SearchState()) && SoundView() == old(SoundView())
    {
      if hasHamburger {
        navShown := !navShown;
        overlayActive := !overlayActive;
      }
    }

    /** The overlay handler: it hides both the menu and the overlay. */
    method ClickOverlay()
      requires Valid()
      modifies this
      ensures Valid()
      ensures NavState() == NavView(false, false)
      ensures SearchState() == old(SearchState()) && SoundView() == old(SoundView())
    {
      navShown := false;
      overlayActive := false;
    }
  }
}
