# Anime catalog front end: watch-page resolution and search-page variables

A Dafny model of the two parts of this browser front end that compute
something rather than only render it.

- **The watch page (`watch.js`).** The page starts from a title's catalog
  answer, which carries the title's MyAnimeList id, its romaji title and its
  cover. It finds that id's entry in the episode index document and keeps the
  episodes of the requested language track, compared ignoring case. It fills
  the episode dropdown and preselects the episode named in the URL. From then
  on three handlers move the page along:
  - the dropdown's change handler selects an episode and enables or disables Play;
  - the Play button retitles the page for the selected episode and plays its first link when it has links;
  - a source button switches the player to another link.

  An episode's embed links come from its provider tag and video id
  (`getEmbedLinks`).
- **The listing and search pages (`app-search.js`).** The listing page maps a
  tab to a sort key. The search page turns an optional genre into a genre
  filter. Both apply the `||` fallbacks for a missing title or cover, and the
  search page shows a message when there are no results.

Every operation is a pure function over immutable datatypes. The two fetched
JSON documents are parameters: the catalog answer and the episode index. So
are the URL parameters `type` and `ep`, and the screen as the page markup
leaves it. `None` stands for JavaScript's `null`, `undefined` or `NaN`. A
fetch or a decoding that throws is also `None` here.

Modules:
- `Wrappers`: `Option`.
- `Text`: ASCII `toLowerCase`/`toUpperCase`, the rendering of an integer in a
  template string, and `parseInt(s, 10)`. It also proves that `parseInt` reads
  back what the template printed.
- `Seqs`: `find` and `filter` over sequences. It proves that `filter` returns
  the only subsequence of the input that keeps every matching element and
  nothing else.
- `Embed`: `getEmbedLinks`, and a reader that takes the video id back out of
  a link.
- `EpisodeIndex`: the `Episode` and `IndexEntry` records, the entry lookup by
  MyAnimeList id, the language filter and the episode lookup by number.
- `WatchPage`: the screen, `init`, the three event handlers, and a page
  invariant that all of them preserve.
- `Search`: the sort key, the genre filter, the fallbacks, the card list and
  the two result views.

## Behaviour worth noting

The model follows what the code does, including these points:
- The language filter neither deduplicates nor sorts episodes. It keeps
  document order and duplicates.
- Changing the dropdown selection does not derive sources or touch the player.
  Only Play does that.
- There is no default language track. A missing `type` parameter makes the
  filter throw ("Something went wrong.") as soon as the entry has an episode.
  With an entry that has no episodes, the page reads "No null episodes available.".
- The page does not validate the catalog id. A failed or empty catalog answer
  ends in the generic failure message.

## Model

| member | source | states |
|---|---|---|
| Embed.EmbedLinks | watch.js:60-72 | at most two links; none exactly for an unknown provider tag; two exactly for "anime"; every link gives back the episode's video id when read at its position |
| Embed.LinkRoundTrip | watch.js:61-69 | a provider's host, a video id and the suffix of the link's position read back as that video id |
| Embed.ProviderLinks | watch.js:61-69 | the exact links: `//s3taku.one/watch?play=v` then the same with `&sv=1`; `//streamtape.com/e/v`; `//mp4upload.com/v/v` |
| Embed.AlternateExtendsDefault | watch.js:63-64 | the second "anime" link is the first with `&sv=1` appended |
| Embed.DefaultLinkMayAliasAlternate | watch.js:63-64 | video ids are not escaped, so the default link of `v&sv=1` equals the alternate link of `v` |
| Text.Lower | watch.js:127 | `toLowerCase` keeps the length and lower-cases each ASCII letter in place |
| Text.Upper | watch.js:91 | `toUpperCase` keeps the length and upper-cases each ASCII letter in place |
| Text.EqualsIgnoreCaseCharwise | watch.js:127 | two strings are equal ignoring case exactly when they have the same length and agree position by position after lower-casing |
| Text.LowerIdempotent | watch.js:127 | lower-casing twice is lower-casing once |
| Text.Capitalize | watch.js:91 | the label has the track's length, starts with no lower-case letter, has no upper-case letter after the first, and equals the track ignoring case |
| Text.DecimalString | watch.js:93 | an integer prints as a minus sign exactly for negatives, then digits with no leading zero unless the number is 0, whose value is the number's magnitude |
| Text.ParseInt | watch.js:158 | `parseInt` gives NaN exactly when no digit follows the optional sign; otherwise the value of the longest run of digits after the sign, negated exactly after a leading minus |
| Text.ParsePlusSign | watch.js:158 | a '+' in front of unsigned text does not change what `parseInt` reads |
| Text.ParseMinusSign | watch.js:158 | a '-' in front of unsigned text negates what `parseInt` reads, and NaN stays NaN |
| Text.ParseLeadingZero | watch.js:158 | a leading zero in front of a digit does not change what `parseInt` reads, so "007" reads as 7 |
| Text.ParseDecimalPrefix | watch.js:158 | `parseInt` reads back a printed integer even when non-digit text follows it |
| Text.ParseDecimal | watch.js:158 | `parseInt` of a printed integer is that integer |
| Seqs.FirstWhere | watch.js:120 | the position found satisfies the predicate and no earlier one does; none is found exactly when no element satisfies it |
| Seqs.Find | watch.js:120 | `find` returns the first satisfying element, or nothing exactly when none satisfies |
| Seqs.Filter | watch.js:126-128 | every kept element satisfies the predicate; no satisfying element is dropped; the result is a subsequence as long as the number of satisfying elements |
| Seqs.SubsequenceCountBound | watch.js:126-128 | a subsequence of satisfying elements is no longer than the number of satisfying elements |
| Seqs.FilterUnique | watch.js:126-128 | any subsequence of satisfying elements of that length is the filter's result: nothing reordered, dropped or deduplicated |
| Seqs.FilterCharacterized | watch.js:126-128 | both directions of the characterization of `filter` |
| EpisodeIndex.FindEntry | watch.js:120-124 | the entry found is the first whose MyAnimeList id equals the title's; none exactly when the title has no id or no entry carries it |
| EpisodeIndex.LangFilter | watch.js:126-128 | every kept episode is on the requested track ignoring case; no episode on the track is dropped; document order is kept; the result is as long as the number of on-track episodes, so duplicates stay |
| EpisodeIndex.LangFilterCharacterized | watch.js:126-128 | both directions: a list is the filtered list exactly when it is an order-preserving subsequence of on-track episodes as long as their count |
| EpisodeIndex.LangFilterKeepsAll | watch.js:126-128 | when every episode is on the track, the list comes back unchanged, duplicates included |
| EpisodeIndex.LangFilterIgnoresRequestCase | watch.js:127 | requests for the same track in different letter case keep the same episodes |
| EpisodeIndex.FindEpisode | watch.js:159 | the episode found is the first with the requested number; none exactly when the number is NaN or no episode carries it |
| WatchPage.Title | watch.js:90-97 | the title starts with "{title} [{Lang}]"; it has nothing more exactly when the episode number is falsy; otherwise " - Episode " and the number's canonical decimal form follow, which read back as the number |
| WatchPage.EpisodeZeroIsUntitled | watch.js:92-96 | episode 0 is titled as if no episode were given |
| WatchPage.TitleLabelIsTrack | watch.js:91-95 | the bracketed label equals the requested track ignoring case and does not start with a lower-case letter |
| WatchPage.SourceButtons | watch.js:78-86 | one button per link, in link order, each pointing at its link and captioned "Source " followed by the canonical decimal form of its position plus one, which reads back as that number |
| WatchPage.UpdatePlayer | watch.js:100-107 | with links, the player is shown on the first link and the buttons are the "Source i+1" buttons of those links; with none, the screen is unchanged; title, poster, options and Play are never touched |
| WatchPage.EpisodeOptions | watch.js:135-140 | one option per filtered episode, in order; each value is the episode number's canonical decimal form, which reads back as the number, and its text is "Episode " followed by the value |
| WatchPage.EpisodeParam | watch.js:15 | a missing `ep` parameter is NaN; a present one is what `parseInt` reads from it |
| WatchPage.Preselect | watch.js:142-154 | NaN only sets the episode-less title; a number no episode carries changes nothing; otherwise the first episode with the number is selected, Play is enabled, the page is retitled for it (episode 0 without a number) and the player and buttons are set from the episode's links when it has any; poster, options and episodes are untouched |
| WatchPage.Init | watch.js:111-179 | the page runs exactly when the catalog answer and index loaded, an entry carries the id, a track was given and the track has episodes; a running page holds exactly the filtered episodes, appends one option per episode, shows the cover and is then the preselection of the `ep` parameter applied to that page; a failed load shows "Something went wrong.", a missing entry "No episodes found.", an empty track "No {type} episodes available.", a missing type "Something went wrong." or "No null episodes available."; a halted page leaves player, buttons, options and Play as the markup had them |
| WatchPage.InitPreselects | watch.js:142-154 | NaN gives an episode-less title and no selection and leaves player, buttons and Play as the markup had them; a number some episode carries selects the first such episode, enables Play, titles the page with that number (episode-less for 0), plays the episode's first link and shows its source buttons when it has links and otherwise leaves player and buttons alone; another number leaves title, selection, Play, player and buttons alone |
| WatchPage.Change | watch.js:157-161 | the selection is the episode lookup of the parsed number, i.e. the first episode with it, none exactly when no episode has it; Play is enabled exactly when there is a selection; nothing else changes |
| WatchPage.ChangeToOption | watch.js:137-161 | choosing the k-th option selects an episode with that option's number, at or before position k: a later duplicate can never be selected |
| WatchPage.Play | watch.js:164-175 | with no selection nothing changes; otherwise the page is retitled for the selected episode (episode 0 without a number); when the episode has links the player plays the first one and shows its buttons, and without links the previous source and buttons stay |
| WatchPage.ClickSource | watch.js:82-84 | the player switches to the clicked button's link and nothing else changes |
| WatchPage.UpdatePlayerValid | watch.js:100-107 | updating the player for one of the page's episodes keeps the page invariant |
| WatchPage.InitValid | watch.js:111-154 | a page whose markup starts with the player hidden and no buttons starts in the page invariant: episodes on the track, selection among them with Play enabled, buttons from one episode's sources, a shown player on a button's link |
| WatchPage.ChangeValid | watch.js:157-161 | the change handler keeps the page invariant |
| WatchPage.PlayValid | watch.js:164-175 | the play handler keeps the page invariant |
| WatchPage.ClickSourceValid | watch.js:82-84 | a source button keeps the page invariant |
| Search.SortFor | app-search.js:26-31 | one sort key: popularity exactly for "POPULAR", score exactly for "TOP", trend for everything else including the default |
| Search.GenreFilter | app-search.js:68-71 | no genre filter exactly when the genre is omitted or empty; otherwise the one-element list of the genre |
| Search.GenreFilterRoundTrip | app-search.js:70 | the genre read back from the filter is the genre chosen, or '' when there was none |
| Search.GenreFilterInjective | app-search.js:70 | different non-empty genres give different filters, and none gives the absent filter |
| Search.OrElse | app-search.js:91-92 | a present non-empty value passes through; a missing or empty one gives the fallback |
| Search.OrElseSettles | app-search.js:91-92 | a fallback applied to its own result changes nothing, and a non-empty fallback never yields '' |
| Search.DetailLink | app-search.js:94 | the detail-page link of a media id is exactly `anime.html?id=` followed by the id's decimal form, and reads back, through the detail page's `parseInt`, as that id |
| Search.Cards | app-search.js:90-99 | one card per media item, in order; each links to exactly `anime.html?id=` followed by its item's id in decimal, which the detail page reads back as the id; titles fall back to "Untitled" and images to `assets/fallback.jpg`, so neither is empty |
| Search.SearchView | app-search.js:84-104 | the failure message exactly on a failed request; "No results found." exactly for a missing or empty list; the cards of the list, one per item in order, exactly otherwise |
| Search.LoadView | app-search.js:38-50 | the listing never shows a message; it stays "Loading..." exactly when the request failed or the list is missing; otherwise the cards of the list, one per item in order |
| Search.SearchAndLoadAgree | app-search.js:40-99 | both pages render the same cards for a non-empty list; for an empty one the search page shows "No results found." and the listing an empty grid |

## Left out

- Network I/O: every `fetch` and its JSON decoding (watch.js:2-4, 47-53, 115-118; app-search.js:33-38, 78-83). The decoded answers are parameters, and `None` means the call threw.
- DOM work: `innerHTML`, `createElement`, `classList`, listener wiring. Only the resulting values are modelled: title text, poster, player source and visibility, buttons, options, Play enablement. A card's HTML markup and CSS classes are reduced to link, image and title, and titles are not HTML-escaped (neither are they in the code).
- The dropdown's displayed value (`episodeSelect.value = episodeNum`, watch.js:146): it is DOM state the model does not track.
- URL handling: `getParam` and `URLSearchParams` parsing (watch.js:7-15, app-search.js:175-176) and `history.pushState` (watch.js:168-170). The `type` and `ep` parameters are inputs.
- The search box's Enter handler (app-search.js:126-135) and the `DOMContentLoaded` wiring that decides when `loadAnime`/`searchAnime` run (app-search.js:139-186): page wiring with no logic beyond what is modelled.
- The theme toggle and `localStorage` (app-search.js:109-124), and loading the navigation bar (app-search.js:139-153): browser state and I/O.
- The `console.error` logging in the catch branches: output only.
- The `loadAnime` request's constant `type: 'ANIME'` and the search's `search: query` variable pass fixed or given values through unchanged, so only the sort key and genre are modelled.
- app.js duplicates `loadAnime` and contains a copy of anime.js that does not parse; anime.js only renders fetched fields. Neither is part of this model.
- Text.Lower: only ASCII letters change case. JavaScript also maps other Unicode letters, and some map to several characters.
- Text.Upper: only ASCII letters change case, for the same reason as Text.Lower.
- Text.Capitalize: it works on characters, not UTF-16 code units, so an astral first character is not split as `charAt(0)` would split it.
- Text.DecimalString: only the plain decimal form. JavaScript prints magnitudes of 10^21 and above in exponent form, and episode numbers and media ids that are not integers are not modelled.
- Text.ParseInt: leading white space is not skipped, so text such as " 7" reads as NaN where JavaScript reads 7. This reaches `WatchPage.EpisodeParam`: `?ep=+7` decodes to " 7", which the code preselects as episode 7 and the model does not. It reaches `WatchPage.Change` only through option values, which never start with white space. The 2^53 precision limit of JavaScript numbers is not modelled either.
- WatchPage.Init: the romaji title is a string. A `null` title, which the code would print as "null", is not modelled.
