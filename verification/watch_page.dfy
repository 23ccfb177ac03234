/**
 * The watch page (watch.js) as pure state transitions: `init` resolves the
 * title and its episodes and preselects the episode named in the URL; the
 * dropdown's change handler, the play button and the source buttons then move
 * the page from one screen to the next. The fetched JSON arrives as parameters.
 */
module WatchPage {
  import opened Wrappers
  import opened Text
  import opened Embed
  import opened EpisodeIndex

  /** The catalog's answer for the page's title: `idMal`, `title.romaji`, `coverImage.large`. */
  datatype Media = Media(idMal: Option<int>, romaji: string, coverLarge: string)

  /** A "Source n" button that points the player at its link when clicked. */
  datatype SourceButton = SourceButton(text: string, link: string)

  /** A dropdown option: its `value` attribute and its text. */
  datatype EpisodeOption = EpisodeOption(value: string, text: string)

  /**
   * What the user sees: the heading, the poster, the player's source and
   * visibility (the poster overlay is hidden exactly when the player is shown),
   * the source buttons, the dropdown's options and whether Play is enabled.
   */
  datatype Screen = Screen(
    title: string,
    poster: string,
    playerSrc: string,
    playerShown: bool,
    buttons: seq<SourceButton>,
    options: seq<EpisodeOption>,
    playEnabled: bool)

  /** A page whose episodes loaded: the page-scoped variables and the screen. */
  datatype Session = Session(
    animeTitle: string,
    lang: string,
    episodes: seq<Episode>,
    selected: Option<Episode>,
    screen: Screen)

  /** Where `init` leaves the page: stopped with a message, or running with episodes. */
  datatype Outcome = Halted(screen: Screen) | Running(session: Session)

  const FailureMessage := "Something went wrong."
  const NoEntryMessage := "No episodes found."

  function NoTrackMessage(t: string): string {
    "No " + t + " episodes available."
  }

  /* ---------- title ---------- */

  /** JavaScript truthiness of the episode number given to `updateTitle`: undefined, NaN and 0 are falsy. */
  predicate Truthy(epNum: Option<int>) {
    epNum.Some? && epNum.value != 0
  }

  function TitleHead(animeTitle: string, t: string): string {
    animeTitle + " [" + Capitalize(t) + "]"
  }

  const EpisodeMarker := " - Episode "

  /**
   * `updateTitle`: "{title} [{Lang}] - Episode {n}", with the episode part left
   * out when the number is falsy.
   */
  function Title(animeTitle: string, t: string, epNum: Option<int>): (r: string)
    ensures |TitleHead(animeTitle, t)| <= |r| && r[..|TitleHead(animeTitle, t)|] == TitleHead(animeTitle, t)
    ensures !Truthy(epNum) <==> |r| == |TitleHead(animeTitle, t)|
    ensures Truthy(epNum) ==>
              var rest := r[|TitleHead(animeTitle, t)|..];
              && rest == EpisodeMarker + DecimalString(epNum.value)
              && ParseInt(rest[|EpisodeMarker|..]) == epNum
  {
    var head := TitleHead(animeTitle, t);
    if Truthy(epNum) then
      var digits := DecimalString(epNum.value);
      var rest := EpisodeMarker + digits;
      var r := head + rest;
      assert r[..|head|] == head && r[|head|..] == rest;
      assert rest[|EpisodeMarker|..] == digits;
      ParseDecimal(epNum.value);
      r
    else
      head
  }

  /** Episode 0 is titled as if no episode were given. */
  lemma EpisodeZeroIsUntitled(animeTitle: string, t: string)
    ensures Title(animeTitle, t, Some(0)) == Title(animeTitle, t, None)
  {
  }

  /** The bracketed language label is the requested track, capitalized: equal to it ignoring case. */
  lemma TitleLabelIsTrack(animeTitle: string, t: string, epNum: Option<int>)
    ensures var shown := Title(animeTitle, t, epNum)[|animeTitle| + 2..|animeTitle| + 2 + |t|];
            EqualsIgnoreCase(shown, t) && (|t| > 0 ==> !('a' <= shown[0] <= 'z'))
  {
    var head := TitleHead(animeTitle, t);
    var r := Title(animeTitle, t, epNum);
    assert head[|animeTitle| + 2..|animeTitle| + 2 + |t|] == Capitalize(t);
    assert r[..|head|] == head;
    assert r[|animeTitle| + 2..|animeTitle| + 2 + |t|] == head[|animeTitle| + 2..|animeTitle| + 2 + |t|];
  }

  /* ---------- player ---------- */

  const SourceLabel := "Source "

  /** One "Source {i+1}" button per link, in link order. */
  function SourceButtons(links: seq<string>): (bs: seq<SourceButton>)
    ensures |bs| == |links|
    ensures forall i :: 0 <= i < |bs| ==> bs[i].link == links[i]
    ensures forall i :: 0 <= i < |bs| ==>
              && bs[i].text == SourceLabel + DecimalString(i + 1)
              && ParseInt(bs[i].text[|SourceLabel|..]) == Some(i + 1)
  {
    var bs := seq(|links|, i requires 0 <= i < |links| => SourceButton(SourceLabel + DecimalString(i + 1), links[i]));
    assert forall i :: 0 <= i < |bs| ==> ParseInt(bs[i].text[|SourceLabel|..]) == Some(i + 1) by {
      forall i | 0 <= i < |bs|
        ensures ParseInt(bs[i].text[|SourceLabel|..]) == Some(i + 1)
      {
        assert bs[i].text[|SourceLabel|..] == DecimalString(i + 1);
        ParseDecimal(i + 1);
      }
    }
    bs
  }

  function SourcesOf(e: Episode): seq<string> {
    EmbedLinks(e.src, e.videoId)
  }

  /**
   * `updatePlayer`: with at least one link, the player shows the first link and
   * the buttons are replaced by one per link; with none, nothing changes.
   */
  function UpdatePlayer(screen: Screen, e: Episode): (r: Screen)
    ensures SourcesOf(e) == [] ==> r == screen
    ensures SourcesOf(e) != [] ==>
              && r.playerShown
              && r.playerSrc == SourcesOf(e)[0]
              && r.buttons == SourceButtons(SourcesOf(e))
              && |r.buttons| == |SourcesOf(e)|
              && (forall i :: 0 <= i < |r.buttons| ==> r.buttons[i].link == SourcesOf(e)[i])
    ensures r.title == screen.title && r.poster == screen.poster
    ensures r.options == screen.options && r.playEnabled == screen.playEnabled
  {
    var links := SourcesOf(e);
    if |links| > 0 then
      screen.(playerSrc := links[0], playerShown := true, buttons := SourceButtons(links))
    else
      screen
  }

  /* ---------- init ---------- */

  /** One dropdown option per episode, in order: value `${epNum}`, text "Episode {epNum}". */
  function EpisodeOptions(episodes: seq<Episode>): (opts: seq<EpisodeOption>)
    ensures |opts| == |episodes|
    ensures forall i :: 0 <= i < |opts| ==>
              && opts[i].value == DecimalString(episodes[i].epNum)
              && opts[i].text == "Episode " + opts[i].value
              && ParseInt(opts[i].value) == Some(episodes[i].epNum)
  {
    var opts := seq(|episodes|, i requires 0 <= i < |episodes| =>
                      var v := DecimalString(episodes[i].epNum); EpisodeOption(v, "Episode " + v));
    assert forall i :: 0 <= i < |opts| ==> ParseInt(opts[i].value) == Some(episodes[i].epNum) by {
      forall i | 0 <= i < |opts|
        ensures ParseInt(opts[i].value) == Some(episodes[i].epNum)
      {
        ParseDecimal(episodes[i].epNum);
      }
    }
    opts
  }

  /** `parseInt(getParam("ep"), 10)`: a missing parameter is `parseInt(null)`, i.e. of "null", i.e. NaN. */
  function EpisodeParam(epParam: Option<string>): (n: Option<int>)
    ensures epParam.None? ==> n.None?
    ensures epParam.Some? ==> n == ParseInt(epParam.value)
  {
    ParseInt(epParam.GetOr("null"))
  }

  /**
   * The preselection step of `init`: a NaN episode number titles the page
   * without an episode; a number that some episode carries retitles the page
   * for it (episode 0 is titled without a number), plays it, selects it and
   * enables Play; any other number changes nothing.
   */
  function Preselect(s: Session, n: Option<int>): (r: Session)
    ensures r.animeTitle == s.animeTitle && r.lang == s.lang && r.episodes == s.episodes
    ensures r.screen.poster == s.screen.poster && r.screen.options == s.screen.options
    ensures n.None? ==>
              r == s.(screen := s.screen.(title := Title(s.animeTitle, s.lang, None)))
    ensures n.Some? && FindEpisode(s.episodes, n).None? ==> r == s
    ensures n.Some? && FindEpisode(s.episodes, n).Some? ==>
              var e := FindEpisode(s.episodes, n).value;
              && e.epNum == n.value
              && r.selected == Some(e)
              && r.screen.playEnabled
              && r.screen.title == Title(s.animeTitle, s.lang, n)
              && (SourcesOf(e) != [] ==> r.screen.playerShown && r.screen.playerSrc == SourcesOf(e)[0] &&
                                         r.screen.buttons == SourceButtons(SourcesOf(e)))
              && (SourcesOf(e) == [] ==> r.screen.playerShown == s.screen.playerShown &&
                                         r.screen.playerSrc == s.screen.playerSrc &&
                                         r.screen.buttons == s.screen.buttons)
  {
    match n
    case None => s.(screen := s.screen.(title := Title(s.animeTitle, s.lang, None)))
    case Some(k) =>
      match FindEpisode(s.episodes, n)
      case None => s
      case Some(e) =>
        var titled := s.screen.(title := Title(s.animeTitle, s.lang, Some(k)));
        s.(selected := Some(e), screen := UpdatePlayer(titled, e).(playEnabled := true))
  }

  /**
   * `init` given the two fetched documents (None where the fetch or its
   * decoding threw), the `type` and `ep` URL parameters, and the screen as the
   * markup left it.
   */
  function Init(screen0: Screen, media: Option<Media>, index: Option<seq<IndexEntry>>,
                typeParam: Option<string>, epParam: Option<string>): (o: Outcome)
    ensures o.Running? <==>
              && media.Some? && index.Some?
              && FindEntry(index.value, media.value.idMal).Some?
              && typeParam.Some?
              && LangFilter(FindEntry(index.value, media.value.idMal).value.episodes, typeParam.value) != []
    ensures o.Running? ==>
              && o.session.lang == typeParam.value
              && o.session.animeTitle == media.value.romaji
              && o.session.episodes == LangFilter(FindEntry(index.value, media.value.idMal).value.episodes, typeParam.value)
    ensures o.Running? ==>
              && o.session.screen.options == screen0.options + EpisodeOptions(o.session.episodes)
              && o.session.screen.poster == media.value.coverLarge
    ensures o.Running? ==>
              var loaded := screen0.(poster := media.value.coverLarge,
                                     options := screen0.options + EpisodeOptions(o.session.episodes));
              o.session == Preselect(Session(media.value.romaji, typeParam.value, o.session.episodes, None, loaded),
                                     EpisodeParam(epParam))
    ensures o.Halted? ==>
              && o.screen.playerSrc == screen0.playerSrc && o.screen.playerShown == screen0.playerShown
              && o.screen.buttons == screen0.buttons && o.screen.options == screen0.options
              && o.screen.playEnabled == screen0.playEnabled
              && o.screen.poster == (if media.Some? then media.value.coverLarge else screen0.poster)
    ensures media.None? || index.None? ==> o.Halted? && o.screen.title == FailureMessage
    ensures media.Some? && index.Some? && FindEntry(index.value, media.value.idMal).None? ==>
              o.Halted? && o.screen.title == NoEntryMessage
    ensures media.Some? && index.Some? && FindEntry(index.value, media.value.idMal).Some? ==>
              var entry := FindEntry(index.value, media.value.idMal).value;
              && (typeParam.None? && |entry.episodes| > 0 ==> o.Halted? && o.screen.title == FailureMessage)
              && (typeParam.None? && |entry.episodes| == 0 ==> o.Halted? && o.screen.title == NoTrackMessage("null"))
              && (typeParam.Some? && LangFilter(entry.episodes, typeParam.value) == [] ==>
                    o.Halted? && o.screen.title == NoTrackMessage(typeParam.value))
  {
    if media.None? then
      Halted(screen0.(title := FailureMessage))
    else
      var m := media.value;
      var screen1 := screen0.(poster := m.coverLarge);
      if index.None? then
        Halted(screen1.(title := FailureMessage))
      else
        match FindEntry(index.value, m.idMal)
        case None => Halted(screen1.(title := NoEntryMessage))
        case Some(entry) =>
          match typeParam
          case None =>
            // `type.toLowerCase()` on a null type throws as soon as the filter
            // looks at an episode; with no episodes to look at, the message
            // renders the null type as "null".
            if |entry.episodes| > 0 then Halted(screen1.(title := FailureMessage))
            else Halted(screen1.(title := NoTrackMessage("null")))
          case Some(t) =>
            var episodes := LangFilter(entry.episodes, t);
            if |episodes| == 0 then
              Halted(screen1.(title := NoTrackMessage(t)))
            else
              var screen2 := screen1.(options := screen1.options + EpisodeOptions(episodes));
              Running(Preselect(Session(m.romaji, t, episodes, None, screen2), EpisodeParam(epParam)))
  }

  /**
   * What preselection leaves on a running page: a NaN episode number gives an
   * episode-less title and no selection and leaves the player, the buttons and
   * Play as the markup had them; a number some episode carries selects the
   * first such episode, enables Play, retitles the page for it (episode 0 is
   * titled without a number) and plays it; any other number leaves title,
   * selection, Play, player and buttons as the markup had them.
   */
  lemma InitPreselects(screen0: Screen, media: Option<Media>, index: Option<seq<IndexEntry>>,
                       typeParam: Option<string>, epParam: Option<string>)
    ensures var o := Init(screen0, media, index, typeParam, epParam);
            var n := EpisodeParam(epParam);
            o.Running? ==>
              var s := o.session;
              && (n.None? ==>
                    && s.selected.None? && s.screen.title == Title(s.animeTitle, s.lang, None)
                    && s.screen.playEnabled == screen0.playEnabled
                    && s.screen.playerShown == screen0.playerShown && s.screen.playerSrc == screen0.playerSrc
                    && s.screen.buttons == screen0.buttons)
              && (n.Some? && (exists i :: 0 <= i < |s.episodes| && s.episodes[i].epNum == n.value) ==>
                    && s.selected.Some? && s.selected.value == FindEpisode(s.episodes, n).value
                    && s.selected.value.epNum == n.value
                    && s.screen.playEnabled
                    && s.screen.title == Title(s.animeTitle, s.lang, n)
                    && (SourcesOf(s.selected.value) != [] ==>
                          && s.screen.playerShown && s.screen.playerSrc == SourcesOf(s.selected.value)[0]
                          && s.screen.buttons == SourceButtons(SourcesOf(s.selected.value)))
                    && (SourcesOf(s.selected.value) == [] ==>
                          && s.screen.playerShown == screen0.playerShown && s.screen.playerSrc == screen0.playerSrc
                          && s.screen.buttons == screen0.buttons))
              && (n.Some? && (forall i :: 0 <= i < |s.episodes| ==> s.episodes[i].epNum != n.value) ==>
                    && s.selected.None?
                    && s.screen.title == screen0.title
                    && s.screen.playEnabled == screen0.playEnabled
                    && s.screen.playerShown == screen0.playerShown && s.screen.playerSrc == screen0.playerSrc
                    && s.screen.buttons == screen0.buttons)
  {
  }

  /* ---------- event handlers ---------- */

  /**
   * The dropdown's change handler: the selection becomes the first episode
   * whose number is the chosen value parsed, and Play is enabled exactly when
   * there is one. Title and player are left as they were.
   */
  function Change(s: Session, value: string): (r: Session)
    ensures r.selected == FindEpisode(s.episodes, ParseInt(value))
    ensures r.selected.None? <==> forall i :: 0 <= i < |s.episodes| ==> Some(s.episodes[i].epNum) != ParseInt(value)
    ensures r.selected.Some? ==> r.selected.value in s.episodes && Some(r.selected.value.epNum) == ParseInt(value)
    ensures r.screen.playEnabled <==> r.selected.Some?
    ensures r.screen == s.screen.(playEnabled := r.screen.playEnabled)
    ensures r == s.(selected := r.selected, screen := r.screen)
  {
    var sel := FindEpisode(s.episodes, ParseInt(value));
    s.(selected := sel, screen := s.screen.(playEnabled := sel.Some?))
  }

  /**
   * Choosing the k-th generated option selects the FIRST episode carrying that
   * option's number, which sits at or before position k: with duplicate
   * numbers, a later duplicate can never be selected.
   */
  lemma ChangeToOption(s: Session, k: nat)
    requires k < |s.episodes|
    ensures var r := Change(s, EpisodeOptions(s.episodes)[k].value);
            && r.selected.Some?
            && r.selected.value.epNum == s.episodes[k].epNum
            && r.screen.playEnabled
            && exists i :: 0 <= i <= k && s.episodes[i] == r.selected.value &&
                 forall j :: 0 <= j < i ==> s.episodes[j].epNum != s.episodes[k].epNum
  {
  }

  /**
   * The play button's click handler: with nothing selected nothing happens;
   * otherwise the page is retitled for the selected episode (episode 0 without
   * a number); when the episode has links the player plays the first one and
   * shows its buttons, and without links the previous source and buttons stay.
   */
  function Play(s: Session): (r: Session)
    ensures s.selected.None? ==> r == s
    ensures s.selected.Some? ==>
              && r.screen.title == Title(s.animeTitle, s.lang, Some(s.selected.value.epNum))
              && r.screen == UpdatePlayer(s.screen.(title := r.screen.title), s.selected.value)
    ensures r == s.(screen := r.screen)
  {
    match s.selected
    case None => s
    case Some(e) =>
      s.(screen := UpdatePlayer(s.screen.(title := Title(s.animeTitle, s.lang, Some(e.epNum))), e))
  }

  /** A source button's click handler: the player switches to that button's link. */
  function ClickSource(s: Session, k: nat): (r: Session)
    requires k < |s.screen.buttons|
    ensures r.screen.playerSrc == s.screen.buttons[k].link
    ensures r == s.(screen := s.screen.(playerSrc := r.screen.playerSrc))
  {
    s.(screen := s.screen.(playerSrc := s.screen.buttons[k].link))
  }

  /* ---------- the page invariant ---------- */

  /**
   * A running page has at least one episode, all on its track; a selected
   * episode is one of them and enables Play; the buttons, when there are any,
   * are the sources of one of the episodes; and a visible player plays the link
   * of one of the buttons.
   */
  predicate Valid(s: Session) {
    && |s.episodes| > 0
    && (forall i :: 0 <= i < |s.episodes| ==> EqualsIgnoreCase(s.episodes[i].lang, s.lang))
    && (s.selected.Some? ==> s.selected.value in s.episodes && s.screen.playEnabled)
    && (s.screen.buttons == [] ||
        exists i :: 0 <= i < |s.episodes| && s.screen.buttons == SourceButtons(SourcesOf(s.episodes[i])))
    && (s.screen.playerShown ==>
        exists k :: 0 <= k < |s.screen.buttons| && s.screen.buttons[k].link == s.screen.playerSrc)
  }

  lemma UpdatePlayerValid(s: Session, title: string, e: Episode)
    requires Valid(s) && e in s.episodes
    ensures Valid(s.(screen := UpdatePlayer(s.screen.(title := title), e)))
  {
  }

  /** A page whose markup starts with the player hidden and no source buttons starts valid. */
  lemma InitValid(screen0: Screen, media: Option<Media>, index: Option<seq<IndexEntry>>,
                  typeParam: Option<string>, epParam: Option<string>)
    requires !screen0.playerShown && screen0.buttons == []
    ensures var o := Init(screen0, media, index, typeParam, epParam);
            o.Running? ==> Valid(o.session)
  {
    var o := Init(screen0, media, index, typeParam, epParam);
    if o.Running? {
      var entry := FindEntry(index.value, media.value.idMal).value;
      var t := typeParam.value;
      var episodes := LangFilter(entry.episodes, t);
      var screen1 := screen0.(poster := media.value.coverLarge);
      var screen2 := screen1.(options := screen1.options + EpisodeOptions(episodes));
      var s := Session(media.value.romaji, t, episodes, None, screen2);
      assert Valid(s);
      var n := EpisodeParam(epParam);
      assert o.session == Preselect(s, n);
      if n.Some? && FindEpisode(episodes, n).Some? {
        var e := FindEpisode(episodes, n).value;
        UpdatePlayerValid(s, Title(s.animeTitle, s.lang, n), e);
      }
    }
  }

  lemma ChangeValid(s: Session, value: string)
    requires Valid(s)
    ensures Valid(Change(s, value))
  {
  }

  lemma PlayValid(s: Session)
    requires Valid(s)
    ensures Valid(Play(s))
  {
  }

  lemma ClickSourceValid(s: Session, k: nat)
    requires Valid(s) && k < |s.screen.buttons|
    ensures Valid(ClickSource(s, k))
  {
  }
}
