/** The pronunciation button: the page-identifier lookup that decides
    whether the button is wired up, and the state change one click makes
    to the button and its audio element. */
module Sound {
  import opened Wrappers
  import opened Text
  import Search

  const SoundDir := "../woordenboek/uitspraak/"

  /** The page-identifier to sound-file table. */
  const SoundMap: map<string, string> := map[
    "schloogy" := "../woordenboek/uitspraak/schloogy.mp3",
    "hoppy" := "../woordenboek/uitspraak/hoppy.mp3",
    "boem" := "../woordenboek/uitspraak/boem.mp3",
    "boemba" := "../woordenboek/uitspraak/boemba.mp3",
    "boemy" := "../woordenboek/uitspraak/boemy.mp3",
    "skib" := "../woordenboek/uitspraak/skib.mp3",
    "swipe" := "../woordenboek/uitspraak/swipe.mp3",
    "sickness" := "../woordenboek/uitspraak/sickness.mp3",
    "sancaronies" := "../woordenboek/uitspraak/sancaronies.mp3",
    "drerrieguy" := "../woordenboek/uitspraak/drerrieguy.mp3",
    "knuist" := "../woordenboek/uitspraak/knuist.mp3",
    "glitch" := "../woordenboek/uitspraak/glitch.mp3",
    "blauw" := "../woordenboek/uitspraak/blauw.mp3",
    "swipetrooper" := "../woordenboek/uitspraak/swipetrooper.mp3"
  ]

  /** The table's page identifiers, in declaration order. */
  const SoundPages: seq<string> := ["schloogy", "hoppy", "boem", "boemba", "boemy", "skib", "swipe", "sickness", "sancaronies", "drerrieguy", "knuist", "glitch", "blauw", "swipetrooper"]

  /** soundMap[pageIdentifier] where a missing data-page attribute (null)
      and an unknown identifier both give nothing. Every file in the table
      is a non-empty string, so "found" and "truthy" agree. */
  function SoundFor(pageId: Option<string>): (r: Option<string>)
    ensures r.Some? <==> pageId.Some? && pageId.value in SoundMap
    ensures r.Some? ==> r.value == SoundDir + pageId.value + ".mp3" && r.value != ""
  {
    match pageId
    case None => None
    case Some(id) =>
      if id in SoundMap then
        SoundMapPattern(id);
        Some(SoundMap[id])
      else None
  }

  /** Every file in the table lies in the pronunciation folder and is
      named after its page identifier. */
  lemma SoundMapPattern(id: string)
    requires id in SoundMap
    ensures SoundMap[id] == SoundDir + id + ".mp3"
  {
    var ids := SoundPages;
    assert SoundMap.Keys == set k | k in ids;
    var i :| 0 <= i < |ids| && ids[i] == id;
    SoundFileAt(i);
  }

  /** The entry of the i-th page identifier. */
  lemma SoundFileAt(i: nat)
    requires i < |SoundPages|
    ensures SoundPages[i] in SoundMap && SoundMap[SoundPages[i]] == SoundDir + SoundPages[i] + ".mp3"
  {
    SoundFileAtLiteral(i);
  }

  /* The table facts below are split into an index form and four small
     lemmas only to keep each proof obligation small; together they say
     what SoundMapPattern says. */
  lemma SoundFileAtLiteral(i: nat)
    requires i < 14
    ensures var ids := ["schloogy", "hoppy", "boem", "boemba", "boemy", "skib", "swipe", "sickness", "sancaronies", "drerrieguy", "knuist", "glitch", "blauw", "swipetrooper"];
            ids[i] in SoundMap && SoundMap[ids[i]] == SoundDir + ids[i] + ".mp3"
  {
    SoundFilesA();
    SoundFilesB();
    SoundFilesC();
    SoundFilesD();
  }

  lemma SoundFilesA()
    ensures "schloogy" in SoundMap && SoundMap["schloogy"] == SoundDir + "schloogy" + ".mp3"
    ensures "hoppy" in SoundMap && SoundMap["hoppy"] == SoundDir + "hoppy" + ".mp3"
    ensures "boem" in SoundMap && SoundMap["boem"] == SoundDir + "boem" + ".mp3"
    ensures "boemba" in SoundMap && SoundMap["boemba"] == SoundDir + "boemba" + ".mp3"
  {
  }

  lemma SoundFilesB()
    ensures "boemy" in SoundMap && SoundMap["boemy"] == SoundDir + "boemy" + ".mp3"
    ensures "skib" in SoundMap && SoundMap["skib"] == SoundDir + "skib" + ".mp3"
    ensures "swipe" in SoundMap && SoundMap["swipe"] == SoundDir + "swipe" + ".mp3"
  {
  }

  lemma SoundFilesC()
    ensures "sickness" in SoundMap && SoundMap["sickness"] == SoundDir + "sickness" + ".mp3"
    ensures "sancaronies" in SoundMap && SoundMap["sancaronies"] == SoundDir + "sancaronies" + ".mp3"
    ensures "drerrieguy" in SoundMap && SoundMap["drerrieguy"] == SoundDir + "drerrieguy" + ".mp3"
    ensures "knuist" in SoundMap && SoundMap["knuist"] == SoundDir + "knuist" + ".mp3"
  {
  }

  lemma SoundFilesD()
    ensures "glitch" in SoundMap && SoundMap["glitch"] == SoundDir + "glitch" + ".mp3"
    ensures "blauw" in SoundMap && SoundMap["blauw"] == SoundDir + "blauw" + ".mp3"
    ensures "swipetrooper" in SoundMap && SoundMap["swipetrooper"] == SoundDir + "swipetrooper" + ".mp3"
  {
  }

  /** The pages that have a pronunciation are exactly the searchable
      terms, lower-cased; listed in table order, they are the terms in
      list order. */
  lemma SoundPagesAreSearchTerms()
    ensures SoundMap.Keys == set t | t in Search.Searchable :: LowerStr(t)
    ensures SoundMap.Keys == set k | k in SoundPages
    ensures |SoundPages| == |Search.Searchable|
    ensures forall i :: 0 <= i < |SoundPages| ==> SoundPages[i] == LowerStr(Search.Searchable[i])
  {
    var ids := SoundPages;
    assert SoundMap.Keys == set k | k in ids;
    forall i | 0 <= i < |ids|
      ensures LowerStr(Search.Searchable[i]) == ids[i]
    {
      LowerTerm(i);
    }
  }

  /** The i-th searchable term, lower-cased. */
  lemma LowerTerm(i: nat)
    requires i < |Search.Searchable|
    ensures LowerStr(Search.Searchable[i]) == SoundPages[i]
  {
    assert LowerStr("Schloogy") == "schloogy";
    assert LowerStr("Hoppy") == "hoppy";
    assert LowerStr("Boem") == "boem";
    assert LowerStr("Boemba") == "boemba";
    assert LowerStr("Boemy") == "boemy";
    assert LowerStr("Skib") == "skib";
    assert LowerStr("Swipe") == "swipe";
    assert LowerStr("Sickness") == "sickness";
    assert LowerStr("Sancaronies") == "sancaronies";
    assert LowerStr("Drerrieguy") == "drerrieguy";
    assert LowerStr("Knuist") == "knuist";
    assert LowerStr("Glitch") == "glitch";
    assert LowerStr("Blauw") == "blauw";
    assert LowerStr("Swipetrooper") == "swipetrooper";
  }

  /** The button inline icons. */
  const OnSoundIcon := "url('../icons/onsound.png')"
  const OffSoundIcon := "url('../icons/offsound.png')"

  /** The button and its audio element as one click sees them: the audio's
      src and paused flag, whether playback is at its start (currentTime
      0), the button's 'active' class and its inline background image. */
  datatype SoundState = SoundState(src: string, paused: bool, atStart: bool,
                                   active: bool, icon: string)

  /** Assigning the audio's src runs the media load algorithm of the HTML
      standard: playback stops and the position returns to the start. */
  function Load(s: SoundState, src: string): (t: SoundState)
    ensures t.src == src && t.paused && t.atStart
    ensures t.active == s.active && t.icon == s.icon
  {
    s.(src := src, paused := true, atStart := true)
  }

  /** One click with play() succeeding, given the value `reported` that
      reading the audio's src yields: when it differs from data-sound, src
      is assigned (which reloads); then a paused sound starts and the
      button lights up, while a playing sound stops, rewinds and the
      button goes dark. */
  function ClickReporting(s: SoundState, dataSound: string, reported: string): (t: SoundState)
    ensures reported != dataSound ==> t.src == dataSound
    ensures reported == dataSound ==> t.src == s.src
    ensures reported != dataSound || s.paused ==>
              !t.paused && t.active && t.icon == OnSoundIcon &&
              t.atStart == (reported != dataSound || s.atStart)
    ensures reported == dataSound && !s.paused ==>
              t.paused && t.atStart && !t.active && t.icon == OffSoundIcon
  {
    var u := if reported != dataSound then Load(s, dataSound) else s;
    if u.paused then u.(paused := false, active := true, icon := OnSoundIcon)
    else u.(paused := true, atStart := true, active := false, icon := OffSoundIcon)
  }

  /** The click the handler evidently intends: reading src yields what was
      last assigned, so a sound already in place is not reloaded and the
      click toggles it. */
  function Click(s: SoundState, dataSound: string): (t: SoundState)
    ensures t.src == dataSound
    ensures s.src != dataSound || s.paused ==> !t.paused && t.active && t.icon == OnSoundIcon
    ensures s.src == dataSound && s.paused ==> t.atStart == s.atStart
    ensures s.src == dataSound && !s.paused ==>
              t.paused && t.atStart && !t.active && t.icon == OffSoundIcon
  {
    ClickReporting(s, dataSound, s.src)
  }

  /** The button shows what the audio is doing: lit with the on-icon
      exactly while it plays. */
  predicate Consistent(s: SoundState) {
    s.active == !s.paused && s.icon == (if s.active then OnSoundIcon else OffSoundIcon)
  }

  /** After any click the button agrees with the audio. */
  lemma ClickIsConsistent(s: SoundState, dataSound: string, reported: string)
    ensures Consistent(ClickReporting(s, dataSound, reported))
    ensures Consistent(Click(s, dataSound))
  {
  }

  /** Two intended clicks on the sound in place return the audio's paused
      flag, and the button's class and icon whenever the button agreed
      with the audio, to where they were; a different sound is loaded,
      played and stopped. Starting paused, they leave the off-icon. */
  lemma ClickTwice(s: SoundState, dataSound: string)
    ensures var t := Click(Click(s, dataSound), dataSound);
            && t.src == dataSound
            && t.paused == (s.paused || s.src != dataSound)
            && (s.src == dataSound && s.active == !s.paused ==> t.active == s.active)
            && (s.src == dataSound && Consistent(s) ==> t.icon == s.icon)
            && (s.paused ==> t.icon == OffSoundIcon)
  {
  }

  /** The clip playing to its end. The browser sets paused by itself and
      leaves the position at the end; nothing tells the button, which keeps
      its class and icon. */
  function Ended(s: SoundState): (t: SoundState)
    ensures t.paused && !t.atStart
    ensures t.src == s.src && t.active == s.active && t.icon == s.icon
  {
    s.(paused := true, atStart := false)
  }

  /** The handler listens for clicks only, so once a clip has ended the
      button stays lit over a paused sound, and the next click plays the
      sound again instead of stopping it, leaving the button lit; only the
      click after that darkens it. */
  lemma EndedThenClick(s: SoundState, dataSound: string)
    requires Consistent(s) && !s.paused
    ensures !Consistent(Ended(s))
    ensures var t := Click(Ended(s), dataSound);
            !t.paused && t.active && t.icon == s.icon
    ensures var t := Click(Click(Ended(s), dataSound), dataSound);
            t.paused && !t.active && t.icon == OffSoundIcon
  {
  }

  /** A URL with a scheme, such as "https://host/path": the form in which
      a media element's src attribute is always read back, resolved
      against the document's address. */
  predicate IsAbsoluteUrl(u: string) {
    |u| > 0 && (IsLower(u[0]) || IsUpper(u[0])) && ':' in u
  }

  /** Every file in the table is a relative URL. */
  lemma TableFilesRelative(pageId: Option<string>)
    requires SoundFor(pageId).Some?
    ensures !IsAbsoluteUrl(SoundFor(pageId).value)
  {
  }

  /** As written, in a browser: src reads back absolute while data-sound is
      relative, so every click reloads the sound and then plays it from
      the start, lighting the button. */
  lemma BrowserClickPlays(s: SoundState, dataSound: string, reported: string)
    requires IsAbsoluteUrl(reported) && !IsAbsoluteUrl(dataSound)
    ensures ClickReporting(s, dataSound, reported) == SoundState(dataSound, false, true, true, OnSoundIcon)
  {
  }

  /** As written, two clicks on the "boem" page, starting from the state
      the page loads in, leave the sound playing with the on-icon, where
      the intended toggle would have stopped it. */
  lemma BrowserTwoClicks(reported1: string, reported2: string)
    requires IsAbsoluteUrl(reported1) && IsAbsoluteUrl(reported2)
    ensures var d := SoundFor(Some("boem")).value;
            var s := SoundState(d, true, true, false, "");
            var t := ClickReporting(ClickReporting(s, d, reported1), d, reported2);
            && !t.paused && t.active && t.icon == OnSoundIcon
            && Click(Click(s, d), d).paused
  {
  }
}
