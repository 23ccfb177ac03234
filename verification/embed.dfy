/**
 * Embed URLs for an episode's provider tag (`data-src`) and provider video id
 * (`data-video-id`), as `getEmbedLinks` in watch.js builds them.
 */
module Embed {
  import opened Wrappers

  const AnimeHost := "//s3taku.one/watch?play="
  const AlternateSuffix := "&sv=1"
  const StreamtapeHost := "//streamtape.com/e/"
  const Mp4uploadHost := "//mp4upload.com/v/"

  predicate KnownProvider(tag: string) {
    tag == "anime" || tag == "streamtape" || tag == "mp4upload"
  }

  /** The embed links of a video, default source first; an unknown provider has none. */
  function EmbedLinks(tag: string, videoId: string): (links: seq<string>)
    ensures |links| <= 2
    ensures |links| == 0 <==> !KnownProvider(tag)
    ensures |links| == 2 <==> tag == "anime"
    ensures forall i :: 0 <= i < |links| ==> VideoIdAt(tag, i, links[i]) == Some(videoId)
  {
    if tag == "anime" then
      LinkRoundTrip(tag, 0, videoId);
      LinkRoundTrip(tag, 1, videoId);
      assert AnimeHost + videoId + "" == AnimeHost + videoId;
      [AnimeHost + videoId, AnimeHost + videoId + AlternateSuffix]
    else if tag == "streamtape" then
      LinkRoundTrip(tag, 0, videoId);
      assert StreamtapeHost + videoId + "" == StreamtapeHost + videoId;
      [StreamtapeHost + videoId]
    else if tag == "mp4upload" then
      LinkRoundTrip(tag, 0, videoId);
      assert Mp4uploadHost + videoId + "" == Mp4uploadHost + videoId;
      [Mp4uploadHost + videoId]
    else
      []
  }

  /** The host prefix every link of a provider starts with; '' for an unknown provider. */
  function HostOf(tag: string): string {
    if tag == "anime" then AnimeHost
    else if tag == "streamtape" then StreamtapeHost
    else if tag == "mp4upload" then Mp4uploadHost
    else ""
  }

  /** What the i-th link of a provider ends with after the video id. */
  function SuffixOf(tag: string, i: nat): string {
    if tag == "anime" && i == 1 then AlternateSuffix else ""
  }

  /**
   * Reads the video id back out of the i-th link of a provider: the text between
   * the provider's host prefix and the link's suffix, or None if the link does
   * not have that shape.
   */
  function VideoIdAt(tag: string, i: nat, link: string): (r: Option<string>)
    ensures r.Some? ==> link == HostOf(tag) + r.value + SuffixOf(tag, i)
  {
    var host := HostOf(tag);
    var suffix := SuffixOf(tag, i);
    if KnownProvider(tag) && |host| + |suffix| <= |link|
       && link[..|host|] == host && link[|link| - |suffix|..] == suffix
    then
      var id := link[|host|..|link| - |suffix|];
      SplitThree(link, |host|, |link| - |suffix|);
      Some(id)
    else None
  }

  lemma SplitThree(s: string, p: nat, q: nat)
    requires p <= q <= |s|
    ensures s == s[..p] + s[p..q] + s[q..]
  {
  }

  /** A link built from a provider's host, a video id and the suffix of its position gives that id back. */
  lemma LinkRoundTrip(tag: string, i: nat, videoId: string)
    requires KnownProvider(tag)
    ensures VideoIdAt(tag, i, HostOf(tag) + videoId + SuffixOf(tag, i)) == Some(videoId)
  {
  }

  /** The exact links of each provider. */
  lemma ProviderLinks(videoId: string)
    ensures EmbedLinks("anime", videoId) ==
              ["//s3taku.one/watch?play=" + videoId, "//s3taku.one/watch?play=" + videoId + "&sv=1"]
    ensures EmbedLinks("streamtape", videoId) == ["//streamtape.com/e/" + videoId]
    ensures EmbedLinks("mp4upload", videoId) == ["//mp4upload.com/v/" + videoId]
  {
  }

  /** The alternate "anime" link is the default link with `&sv=1` appended. */
  lemma AlternateExtendsDefault(videoId: string)
    ensures EmbedLinks("anime", videoId)[1] == EmbedLinks("anime", videoId)[0] + AlternateSuffix
  {
  }

  /**
   * Embed links do not escape the video id, so a default link can coincide with
   * the alternate link of another video: an id ending in `&sv=1` is
   * indistinguishable from the alternate source of the id without it.
   */
  lemma DefaultLinkMayAliasAlternate(videoId: string)
    ensures EmbedLinks("anime", videoId + AlternateSuffix)[0] == EmbedLinks("anime", videoId)[1]
  {
  }
}
