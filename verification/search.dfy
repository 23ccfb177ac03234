/**
 * The listing and search pages (app-search.js): the GraphQL variables they
 * send and what they render from the answer. The answer arrives as a
 * parameter; the HTML of a card is reduced to its link, image and title.
 */
module Search {
  import opened Wrappers
  import opened Text

  /* ---------- request variables ---------- */

  /**
   * `loadAnime`'s `sort` variable for a tab's `data-type`; a missing type takes
   * the default 'TRENDING', and every unrecognised type sorts by trend.
   */
  function SortFor(tab: Option<string>): (sort: seq<string>)
    ensures |sort| == 1
    ensures sort == ["POPULARITY_DESC"] <==> tab == Some("POPULAR")
    ensures sort == ["SCORE_DESC"] <==> tab == Some("TOP")
    ensures sort == ["TRENDING_DESC"] <==> tab != Some("POPULAR") && tab != Some("TOP")
  {
    var t := tab.GetOr("TRENDING");
    if t == "POPULAR" then ["POPULARITY_DESC"]
    else if t == "TOP" then ["SCORE_DESC"]
    else ["TRENDING_DESC"]
  }

  /**
   * `searchAnime`'s `genre` variable, `genre ? [genre] : undefined`: an omitted
   * genre defaults to '', and '' is falsy, so it sends no genre filter.
   */
  function GenreFilter(genre: Option<string>): (r: Option<seq<string>>)
    ensures r.None? <==> genre.None? || genre.value == ""
    ensures r.Some? ==> |r.value| == 1 && r.value[0] == genre.value
  {
    var g := genre.GetOr("");
    if g != "" then Some([g]) else None
  }

  /** The genre a filter asks for; no filter asks for none (''). */
  function GenreOf(filter: Option<seq<string>>): string {
    match filter
    case Some(gs) => if |gs| == 1 then gs[0] else ""
    case None => ""
  }

  /** The filter carries the chosen genre unchanged, and no genre turns into the empty choice. */
  lemma GenreFilterRoundTrip(genre: Option<string>)
    ensures GenreOf(GenreFilter(genre)) == genre.GetOr("")
  {
  }

  /** Every non-empty genre yields a different filter, and none yields the absent one. */
  lemma GenreFilterInjective(g1: string, g2: string)
    requires g1 != "" && g2 != "" && g1 != g2
    ensures GenreFilter(Some(g1)) != GenreFilter(Some(g2))
    ensures GenreFilter(Some(g1)) != GenreFilter(None)
  {
  }

  /* ---------- rendering ---------- */

  const Untitled := "Untitled"
  const FallbackImage := "assets/fallback.jpg"
  const DetailPage := "anime.html?id="
  const NoResults := "No results found."
  const LoadFailed := "Failed to load results."

  /** JavaScript `v || fallback` on a string that may be null or undefined: those and '' fall back. */
  function OrElse(v: Option<string>, fallback: string): (r: string)
    ensures v.Some? && v.value != "" ==> r == v.value
    ensures v.None? || v.value == "" ==> r == fallback
  {
    if v.Some? && v.value != "" then v.value else fallback
  }

  /** Applying a fallback to its own result changes nothing, and a non-empty fallback never yields ''. */
  lemma OrElseSettles(v: Option<string>, fallback: string)
    ensures OrElse(Some(OrElse(v, fallback)), fallback) == OrElse(v, fallback)
    ensures fallback != "" ==> OrElse(v, fallback) != ""
  {
  }

  /** One media item of the answer: `id`, `title?.romaji`, `coverImage?.large`. */
  datatype MediaItem = MediaItem(id: int, romaji: Option<string>, coverLarge: Option<string>)

  /** A rendered card: where it links, the image it shows and its title. */
  datatype Card = Card(href: string, image: string, title: string)

  /** The media id a card's link carries to the detail page, as `parseInt` reads it there. */
  function LinkedId(href: string): Option<int> {
    if |DetailPage| <= |href| && href[..|DetailPage|] == DetailPage then ParseInt(href[|DetailPage|..]) else None
  }

  /** The detail page link of a media id, which the detail page reads back as that id. */
  function DetailLink(id: int): (href: string)
    ensures href == DetailPage + DecimalString(id)
    ensures LinkedId(href) == Some(id)
  {
    var href := DetailPage + DecimalString(id);
    assert href[..|DetailPage|] == DetailPage;
    assert href[|DetailPage|..] == DecimalString(id);
    ParseDecimal(id);
    href
  }

  /** One card per media item, in order, each linking to its item's detail page, titles and images never empty. */
  function Cards(media: seq<MediaItem>): (cards: seq<Card>)
    ensures |cards| == |media|
    ensures forall i :: 0 <= i < |cards| ==> cards[i].href == DetailPage + DecimalString(media[i].id)
    ensures forall i :: 0 <= i < |cards| ==> LinkedId(cards[i].href) == Some(media[i].id)
    ensures forall i :: 0 <= i < |cards| ==>
              && cards[i].title == OrElse(media[i].romaji, Untitled) && cards[i].title != ""
              && cards[i].image == OrElse(media[i].coverLarge, FallbackImage) && cards[i].image != ""
  {
    seq(|media|, i requires 0 <= i < |media| =>
          Card(DetailLink(media[i].id),
               OrElse(media[i].coverLarge, FallbackImage),
               OrElse(media[i].romaji, Untitled)))
  }

  /**
   * The answer to a request: the fetch or its decoding failed, or it decoded
   * and `data.data.Page.media` is either missing somewhere along the path
   * (None) or a list.
   */
  datatype Answer = FetchFailed | Decoded(media: Option<seq<MediaItem>>)

  /** What a results area shows. */
  datatype View = Loading | Message(text: string) | Grid(cards: seq<Card>)

  /**
   * `searchAnime`'s results: a failed request shows the failure message, a
   * missing or empty media list shows "No results found.", anything else the
   * cards.
   */
  function SearchView(answer: Answer): (v: View)
    ensures v == Message(LoadFailed) <==> answer.FetchFailed?
    ensures v == Message(NoResults) <==>
              answer.Decoded? && (answer.media.None? || |answer.media.value| == 0)
    ensures v.Grid? <==> answer.Decoded? && answer.media.Some? && |answer.media.value| > 0
    ensures v.Grid? ==> v.cards == Cards(answer.media.value) && |v.cards| == |answer.media.value| > 0
    ensures !v.Loading?
  {
    match answer
    case FetchFailed => Message(LoadFailed)
    case Decoded(media) =>
      if media.None? || |media.value| == 0 then Message(NoResults)
      else Grid(Cards(media.value))
  }

  /**
   * `loadAnime`'s section: it neither catches failures nor checks for an empty
   * list, so a failure leaves "Loading..." in place and an empty list renders
   * an empty grid.
   */
  function LoadView(answer: Answer): (v: View)
    ensures !v.Message?
    ensures v.Loading? <==> answer.FetchFailed? || answer.media.None?
    ensures v.Grid? ==> answer.Decoded? && v.cards == Cards(answer.media.value)
  {
    match answer
    case FetchFailed => Loading
    case Decoded(media) =>
      if media.None? then Loading else Grid(Cards(media.value))
  }

  /** The two pages render the same cards for a non-empty list, but differ on an empty one. */
  lemma SearchAndLoadAgree(media: seq<MediaItem>)
    ensures |media| > 0 ==> SearchView(Decoded(Some(media))) == LoadView(Decoded(Some(media)))
    ensures |media| == 0 ==> SearchView(Decoded(Some(media))) == Message(NoResults) &&
                             LoadView(Decoded(Some(media))) == Grid([])
  {
  }
}
