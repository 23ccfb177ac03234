/**
 * The episode index document: one entry per title, keyed by its MyAnimeList id
 * (`data-mal-id`), each holding that title's episodes. The watch page looks an
 * entry up by id, keeps the episodes of one language track, and looks an
 * episode up by number.
 */
module EpisodeIndex {
  import opened Wrappers
  import opened Text
  import opened Seqs

  /** One episode record: `data-ep-num`, `data-ep-lan`, `data-src`, `data-video-id`. */
  datatype Episode = Episode(epNum: int, lang: string, src: string, videoId: string)

  /** One index entry: `data-mal-id` and its `episodes`, in document order. */
  datatype IndexEntry = IndexEntry(malId: int, episodes: seq<Episode>)

  function HasMalId(malId: int): IndexEntry -> bool {
    (e: IndexEntry) => e.malId == malId
  }

  function MatchesLang(t: string): Episode -> bool {
    (e: Episode) => EqualsIgnoreCase(e.lang, t)
  }

  function HasEpNum(n: int): Episode -> bool {
    (e: Episode) => e.epNum == n
  }

  /**
   * The first entry whose id equals the title's MyAnimeList id. A title with no
   * MyAnimeList id (`null`) matches no entry.
   */
  function FindEntry(index: seq<IndexEntry>, malId: Option<int>): (r: Option<IndexEntry>)
    ensures r.None? <==> malId.None? || forall i :: 0 <= i < |index| ==> index[i].malId != malId.value
    ensures r.Some? ==> malId.Some?
    ensures r.Some? ==>
              exists i :: 0 <= i < |index| && index[i] == r.value && index[i].malId == malId.value &&
                forall j :: 0 <= j < i ==> index[j].malId != malId.value
  {
    match malId
    case None => None
    case Some(id) => Find(index, HasMalId(id))
  }

  /**
   * The episodes of one language track, compared ignoring case, in document
   * order and with duplicates kept.
   */
  function LangFilter(episodes: seq<Episode>, t: string): (r: seq<Episode>)
    ensures forall i :: 0 <= i < |r| ==> EqualsIgnoreCase(r[i].lang, t)
    ensures forall i :: 0 <= i < |episodes| && EqualsIgnoreCase(episodes[i].lang, t) ==> episodes[i] in r
    ensures IsSubsequence(r, episodes)
    ensures |r| == CountWhere(episodes, MatchesLang(t))
  {
    Filter(episodes, MatchesLang(t))
  }

  /**
   * Both directions: r is the language filter exactly when it is a subsequence
   * of the episodes, every element is on the track, and it is as long as the
   * number of episodes on the track.
   */
  lemma LangFilterCharacterized(episodes: seq<Episode>, t: string, r: seq<Episode>)
    ensures r == LangFilter(episodes, t) <==>
              && IsSubsequence(r, episodes)
              && (forall i :: 0 <= i < |r| ==> EqualsIgnoreCase(r[i].lang, t))
              && |r| == CountWhere(episodes, MatchesLang(t))
  {
    FilterCharacterized(episodes, MatchesLang(t), r);
  }

  /**
   * When every episode is on the requested track the filter returns the list
   * unchanged: no deduplication and no reordering.
   */
  lemma LangFilterKeepsAll(episodes: seq<Episode>, t: string)
    requires forall i :: 0 <= i < |episodes| ==> EqualsIgnoreCase(episodes[i].lang, t)
    ensures LangFilter(episodes, t) == episodes
  {
    SubsequenceReflexive(episodes);
    CountAll(episodes, MatchesLang(t));
    FilterUnique(episodes, MatchesLang(t), episodes);
  }

  /** Requesting "DUB", "Dub" or "dub" selects the same episodes. */
  lemma {:induction false} LangFilterIgnoresRequestCase(episodes: seq<Episode>, t: string, t': string)
    requires EqualsIgnoreCase(t, t')
    ensures LangFilter(episodes, t) == LangFilter(episodes, t')
  {
    if |episodes| > 0 {
      LangFilterIgnoresRequestCase(episodes[1..], t, t');
      assert MatchesLang(t)(episodes[0]) == MatchesLang(t')(episodes[0]);
    }
  }

  /** The first episode with the given number; a number that is NaN (None) matches none. */
  function FindEpisode(episodes: seq<Episode>, n: Option<int>): (r: Option<Episode>)
    ensures r.None? <==> n.None? || forall i :: 0 <= i < |episodes| ==> episodes[i].epNum != n.value
    ensures r.Some? ==> n.Some?
    ensures r.Some? ==>
              exists i :: 0 <= i < |episodes| && episodes[i] == r.value && episodes[i].epNum == n.value &&
                forall j :: 0 <= j < i ==> episodes[j].epNum != n.value
  {
    match n
    case None => None
    case Some(k) => Find(episodes, HasEpNum(k))
  }
}
