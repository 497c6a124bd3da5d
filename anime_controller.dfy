/**
 * The logic of src/controllers/anime.controller.js once the store calls are
 * taken away: the catalog is the sequence of Anime documents in stored
 * order, `Anime.findOne({ slug })` is its first document with that slug, and
 * the controllers' in-memory episode paging, episode lookup and catalog
 * filters are functions over it.
 */
module AnimeController {
  import opened Wrappers
  import opened JsBuiltins
  import opened Models
  import opened Errors

  // ---------------------------------------------------------------------
  // Catalog lookup by slug
  // ---------------------------------------------------------------------

  /** `Anime.findOne({ slug })`: the first stored document with that slug. */
  function FindBySlug(catalog: seq<Anime>, slug: string): (r: Option<Anime>)
    ensures r.None? <==> forall i :: 0 <= i < |catalog| ==> catalog[i].slug != slug
    ensures r.Some? ==> exists i :: 0 <= i < |catalog| && catalog[i] == r.value && r.value.slug == slug
                                   && forall j :: 0 <= j < i ==> catalog[j].slug != slug
  {
    match FindIndex(catalog, (a: Anime) => a.slug == slug)
    case None => None
    case Some(i) => Some(catalog[i])
  }

  // ---------------------------------------------------------------------
  // Episode paging (getAnimeBySlug, getAnimeEpisodes)
  // ---------------------------------------------------------------------

  datatype EpisodesPagination = EpisodesPagination(
    totalEpisodes: nat,
    totalPages: nat,
    currentPage: int,
    hasNextPage: bool,
    hasPrevPage: bool)

  /** One page of episodes and the metadata computed beside it. */
  datatype EpisodePage = EpisodePage(episodes: seq<Episode>, pagination: EpisodesPagination)

  /** The page arithmetic shared by both episode controllers: the slice
      `[(page-1)*limit, page*limit)` of the stored episodes (the code does
      not sort them) and the flags computed from the same two indices. */
  function PageOf(episodes: seq<Episode>, page: int, limit: int): (r: EpisodePage)
    requires limit >= 1
    ensures r.pagination.totalEpisodes == |episodes|
    ensures r.pagination.currentPage == page
    ensures (r.pagination.totalPages - 1) * limit < |episodes| <= r.pagination.totalPages * limit
  {
    var startIndex := (page - 1) * limit;
    var endIndex := page * limit;
    var totalEpisodes := |episodes|;
    EpisodePage(
      Slice(episodes, startIndex, endIndex),
      EpisodesPagination(
        totalEpisodes,
        CeilDiv(totalEpisodes, limit),
        page,
        endIndex < totalEpisodes,
        startIndex > 0))
  }

  lemma MulMonotone(a: int, b: int, c: int)
    requires a <= b && c >= 0
    ensures a * c <= b * c
  {
  }

  /** On any page from the first on, the episodes are the contiguous run of
      the stored list starting at `(page-1)*limit`, in stored order. */
  lemma PageIsStoredSlice(episodes: seq<Episode>, page: int, limit: int)
    requires page >= 1 && limit >= 1
    ensures PageOf(episodes, page, limit).episodes
            == episodes[Min((page - 1) * limit, |episodes|)..Min(page * limit, |episodes|)]
  {
    MulMonotone(0, page - 1, limit);
    assert page * limit == (page - 1) * limit + limit;
  }

  /** A page never holds more than `limit` episodes, and it is empty exactly
      when it starts at or past the end (which is not an error). */
  lemma PageSize(episodes: seq<Episode>, page: int, limit: int)
    requires page >= 1 && limit >= 1
    ensures |PageOf(episodes, page, limit).episodes| <= limit
    ensures PageOf(episodes, page, limit).episodes == [] <==> (page - 1) * limit >= |episodes|
  {
  }

  /** `totalPages` is 0 exactly when there are no episodes. */
  lemma NoPagesIffNoEpisodes(episodes: seq<Episode>, page: int, limit: int)
    requires limit >= 1
    ensures PageOf(episodes, page, limit).pagination.totalPages == 0 <==> episodes == []
  {
  }

  /** `hasNextPage`, computed as `page*limit < totalEpisodes`, says exactly
      that the current page comes before the last one, for every page. */
  lemma HasNextIffBeforeLastPage(episodes: seq<Episode>, page: int, limit: int)
    requires limit >= 1
    ensures PageOf(episodes, page, limit).pagination.hasNextPage
            <==> page < PageOf(episodes, page, limit).pagination.totalPages
  {
    var t: int := PageOf(episodes, page, limit).pagination.totalPages;
    if page < t {
      MulMonotone(page, t - 1, limit);
    } else {
      MulMonotone(t, page, limit);
    }
  }

  /** `hasPrevPage`, computed as `(page-1)*limit > 0`, says exactly that the
      current page is past the first one. */
  lemma HasPrevIffPastFirstPage(episodes: seq<Episode>, page: int, limit: int)
    requires limit >= 1
    ensures PageOf(episodes, page, limit).pagination.hasPrevPage <==> page > 1
  {
  }

  /** A page past the last one is empty and has no next page. */
  lemma PagePastEnd(episodes: seq<Episode>, page: int, limit: int)
    requires limit >= 1
    requires page > PageOf(episodes, page, limit).pagination.totalPages
    ensures PageOf(episodes, page, limit).episodes == []
    ensures !PageOf(episodes, page, limit).pagination.hasNextPage
  {
    var t := PageOf(episodes, page, limit).pagination.totalPages;
    MulMonotone(t, page - 1, limit);
    PageSize(episodes, page, limit);
    HasNextIffBeforeLastPage(episodes, page, limit);
  }

  /** When there are episodes, a page within range has a next page exactly
      when it is not the last page. */
  lemma LastPageHasNoNext(episodes: seq<Episode>, page: int, limit: int)
    requires limit >= 1 && episodes != []
    requires 1 <= page <= PageOf(episodes, page, limit).pagination.totalPages
    ensures PageOf(episodes, page, limit).pagination.hasNextPage
            != (page == PageOf(episodes, page, limit).pagination.totalPages)
  {
    HasNextIffBeforeLastPage(episodes, page, limit);
  }

  /** The episodes of pages 1 to `k`, concatenated in page order. */
  function PagesUpTo(episodes: seq<Episode>, limit: int, k: nat): seq<Episode>
    requires limit >= 1
  {
    if k == 0 then [] else PagesUpTo(episodes, limit, k - 1) + PageOf(episodes, k, limit).episodes
  }

  lemma {:induction false} PagesUpToIsPrefix(episodes: seq<Episode>, limit: int, k: nat)
    requires limit >= 1
    ensures PagesUpTo(episodes, limit, k) == episodes[..Min(k * limit, |episodes|)]
  {
    if k > 0 {
      var n := |episodes|;
      var lo := (k - 1) * limit;
      var hi := k * limit;
      assert hi == lo + limit;
      PagesUpToIsPrefix(episodes, limit, k - 1);
      PageIsStoredSlice(episodes, k, limit);
      var prev := PagesUpTo(episodes, limit, k - 1);
      var page := PageOf(episodes, k, limit).episodes;
      assert prev == episodes[..Min(lo, n)];
      assert page == episodes[Min(lo, n)..Min(hi, n)];
      PrefixThenRun(episodes, Min(lo, n), Min(hi, n));
      assert PagesUpTo(episodes, limit, k) == prev + page;
    }
  }

  lemma PrefixThenRun<T>(s: seq<T>, a: nat, b: nat)
    requires a <= b <= |s|
    ensures s[..a] + s[a..b] == s[..b]
  {
  }

  /** The pages 1..totalPages tile the episode list: concatenated, they give
      back every stored episode once, in stored order. */
  lemma PagesTileEpisodes(episodes: seq<Episode>, limit: int)
    requires limit >= 1
    ensures PagesUpTo(episodes, limit, PageOf(episodes, 1, limit).pagination.totalPages) == episodes
  {
    var t := PageOf(episodes, 1, limit).pagination.totalPages;
    PagesUpToIsPrefix(episodes, limit, t);
  }

  /** Thirty episodes numbered 1..30, page 2 with limit 10: episodes 11..20, three
      pages, with a next and a previous page. */
  lemma ThirtyEpisodesSecondPage(episodes: seq<Episode>)
    requires |episodes| == 30
    requires forall i :: 0 <= i < 30 ==> episodes[i].episode == i + 1
    ensures |PageOf(episodes, 2, 10).episodes| == 10
    ensures forall i :: 0 <= i < 10 ==> PageOf(episodes, 2, 10).episodes[i].episode == 11 + i
    ensures PageOf(episodes, 2, 10).pagination == EpisodesPagination(30, 3, 2, true, true)
  {
    PageIsStoredSlice(episodes, 2, 10);
  }

  // ---------------------------------------------------------------------
  // The two episode-paging controllers
  // ---------------------------------------------------------------------

  /** `const { page = 1, limit = 25 } = req.query` followed by
      `parseInt(value, 10)`: an absent value takes the default. */
  function QueryParam(raw: Option<string>, default: int): (r: Option<int>)
    ensures raw.None? ==> r == Some(default)
  {
    match raw
    case None => Some(default)
    case Some(s) => ParseInt(s)
  }

  /** The paging values the page arithmetic can take: both parse, and the
      limit is at least one, as the pagination schema demands. */
  predicate ValidPaging(rawPage: Option<string>, rawLimit: Option<string>) {
    QueryParam(rawPage, 1).Some? && QueryParam(rawLimit, 25).Some? && QueryParam(rawLimit, 25).value >= 1
  }

  function PageFor(episodes: seq<Episode>, rawPage: Option<string>, rawLimit: Option<string>): EpisodePage
    requires ValidPaging(rawPage, rawLimit)
  {
    PageOf(episodes, QueryParam(rawPage, 1).value, QueryParam(rawLimit, 25).value)
  }

  /** The response of `getAnimeBySlug`: the document with its episodes
      replaced by one page, plus `episodesPagination`. */
  datatype AnimeDetail = AnimeDetail(anime: Anime, episodesPagination: EpisodesPagination)

  function GetAnimeBySlug(catalog: seq<Anime>, slug: string, rawPage: Option<string>, rawLimit: Option<string>)
    : (r: Result<AnimeDetail, AppError>)
    requires ValidPaging(rawPage, rawLimit)
    ensures r.Err? <==> FindBySlug(catalog, slug).None?
    ensures r.Err? ==> r.error == AnimeNotFound
    ensures r.Ok? ==> var stored := FindBySlug(catalog, slug).value;
                      r.value.anime.(episodes := stored.episodes) == stored
                      && r.value.anime.episodes == PageFor(stored.episodes, rawPage, rawLimit).episodes
                      && r.value.episodesPagination == PageFor(stored.episodes, rawPage, rawLimit).pagination
  {
    match FindBySlug(catalog, slug)
    case None => Err(AnimeNotFound)
    case Some(anime) =>
      var p := PageFor(anime.episodes, rawPage, rawLimit);
      Ok(AnimeDetail(anime.(episodes := p.episodes), p.pagination))
  }

  /** `getAnimeEpisodes`: the same page without the metadata. */
  function GetAnimeEpisodes(catalog: seq<Anime>, slug: string, rawPage: Option<string>, rawLimit: Option<string>)
    : (r: Result<EpisodePage, AppError>)
    requires ValidPaging(rawPage, rawLimit)
    ensures r.Err? <==> FindBySlug(catalog, slug).None?
    ensures r.Err? ==> r.error == AnimeNotFound
    ensures r.Ok? ==> r.value.pagination.totalEpisodes == |FindBySlug(catalog, slug).value.episodes|
  {
    match FindBySlug(catalog, slug)
    case None => Err(AnimeNotFound)
    case Some(anime) => Ok(PageFor(anime.episodes, rawPage, rawLimit))
  }

  /** Both controllers serve the same page for the same request. */
  lemma DetailAndEpisodesAgree(catalog: seq<Anime>, slug: string, rawPage: Option<string>, rawLimit: Option<string>)
    requires ValidPaging(rawPage, rawLimit)
    ensures GetAnimeBySlug(catalog, slug, rawPage, rawLimit).Ok? <==> GetAnimeEpisodes(catalog, slug, rawPage, rawLimit).Ok?
    ensures GetAnimeBySlug(catalog, slug, rawPage, rawLimit).Ok? ==>
              GetAnimeEpisodes(catalog, slug, rawPage, rawLimit).value
              == EpisodePage(GetAnimeBySlug(catalog, slug, rawPage, rawLimit).value.anime.episodes,
                             GetAnimeBySlug(catalog, slug, rawPage, rawLimit).value.episodesPagination)
  {
  }

  // ---------------------------------------------------------------------
  // Episode server lookup (getAnimeEpisodeServers)
  // ---------------------------------------------------------------------

  /** `anime.episodes.find(e => e.episode === n)`. */
  function FindEpisode(episodes: seq<Episode>, n: int): (r: Option<Episode>)
    ensures r.None? <==> forall i :: 0 <= i < |episodes| ==> episodes[i].episode != n
    ensures r.Some? ==> exists i :: 0 <= i < |episodes| && episodes[i] == r.value && r.value.episode == n
                                   && forall j :: 0 <= j < i ==> episodes[j].episode != n
  {
    match FindIndex(episodes, (e: Episode) => e.episode == n)
    case None => None
    case Some(i) => Some(episodes[i])
  }

  /** The servers of the first episode numbered `episode` of the anime with
      that slug; the anime is looked up first, then the episode. */
  function GetAnimeEpisodeServers(catalog: seq<Anime>, slug: string, episode: int): (r: Result<seq<Server>, AppError>)
    ensures r == Err(AnimeNotFound) <==> FindBySlug(catalog, slug).None?
    ensures r == Err(EpisodeNotFound) <==>
              FindBySlug(catalog, slug).Some?
              && forall i :: 0 <= i < |FindBySlug(catalog, slug).value.episodes| ==>
                   FindBySlug(catalog, slug).value.episodes[i].episode != episode
    ensures r.Ok? <==> FindBySlug(catalog, slug).Some? && FindEpisode(FindBySlug(catalog, slug).value.episodes, episode).Some?
    ensures r.Ok? ==> var episodes := FindBySlug(catalog, slug).value.episodes;
                      exists i :: 0 <= i < |episodes| && episodes[i].episode == episode
                                  && r.value == episodes[i].servers
                                  && forall j :: 0 <= j < i ==> episodes[j].episode != episode
  {
    match FindBySlug(catalog, slug)
    case None => Err(AnimeNotFound)
    case Some(anime) =>
      match FindEpisode(anime.episodes, episode)
      case None => Err(EpisodeNotFound)
      case Some(e) => Ok(e.servers)
  }

  /** Looking up episode 99 of an anime whose episodes are numbered 1..30 is
      an "Episode not found" error. */
  lemma EpisodeOutOfRangeNotFound(catalog: seq<Anime>, slug: string)
    requires FindBySlug(catalog, slug).Some?
    requires forall i :: 0 <= i < |FindBySlug(catalog, slug).value.episodes| ==>
               1 <= FindBySlug(catalog, slug).value.episodes[i].episode <= 30
    ensures GetAnimeEpisodeServers(catalog, slug, 99) == Err(EpisodeNotFound)
  {
  }

  // ---------------------------------------------------------------------
  // Catalog filters (filterAnimes and the fixed status lists)
  // ---------------------------------------------------------------------

  /** The request body of `filterAnimes`; a missing array is `None`. */
  datatype FilterBody = FilterBody(types: Option<seq<string>>, genres: Option<seq<string>>, statuses: Option<seq<AnimeStatus>>)

  /** The query object: each field present is an `$in` constraint. */
  datatype FilterQuery = FilterQuery(typeIn: Option<seq<string>>, genresIn: Option<seq<string>>, statusIn: Option<seq<AnimeStatus>>)

  /** `xs && xs.length > 0`. */
  predicate NonEmpty<T>(xs: Option<seq<T>>) {
    xs.Some? && |xs.value| > 0
  }

  /** The query `filterAnimes` builds: a constraint per non-empty array. */
  function FilterOf(body: FilterBody): (q: FilterQuery)
    ensures q.typeIn.Some? <==> NonEmpty(body.types)
    ensures q.genresIn.Some? <==> NonEmpty(body.genres)
    ensures q.statusIn.Some? <==> NonEmpty(body.statuses)
  {
    FilterQuery(
      if NonEmpty(body.types) then body.types else None,
      if NonEmpty(body.genres) then body.genres else None,
      if NonEmpty(body.statuses) then body.statuses else None)
  }

  /** How the store evaluates the query on one document: `type` is a
      scalar path (a document without one never matches), `genres` an array
      path (some element must be listed), `status` a scalar path. An `$in`
      with an empty list matches nothing, which is why the controller leaves
      empty arrays out of the query. */
  predicate Matches(q: FilterQuery, a: Anime)
    ensures q == FilterQuery(None, None, None) ==> Matches(q, a)
    ensures q.typeIn == Some([]) || q.genresIn == Some([]) || q.statusIn == Some([]) ==> !Matches(q, a)
    ensures q.typeIn.Some? && a.animeType.None? ==> !Matches(q, a)
    ensures q.genresIn.Some? && a.genres == [] ==> !Matches(q, a)
  {
    (q.typeIn.Some? ==> a.animeType.Some? && a.animeType.value in q.typeIn.value)
    && (q.genresIn.Some? ==> exists i :: 0 <= i < |a.genres| && a.genres[i] in q.genresIn.value)
    && (q.statusIn.Some? ==> a.status in q.statusIn.value)
  }

  /** The documents a body asks for: an AND of OR-groups (type among the
      types, some genre among the genres, status among the statuses), each
      group dropped when its array is absent or empty. */
  predicate Admits(body: FilterBody, a: Anime) {
    (NonEmpty(body.types) ==> a.animeType.Some? && a.animeType.value in body.types.value)
    && (NonEmpty(body.genres) ==> exists g :: g in body.genres.value && g in a.genres)
    && (NonEmpty(body.statuses) ==> a.status in body.statuses.value)
  }

  /** The query built from a body matches exactly the documents the body admits. */
  lemma FilterOfMeansAdmits(body: FilterBody, a: Anime)
    ensures Matches(FilterOf(body), a) <==> Admits(body, a)
  {
  }

  /** With all three arrays absent or empty, every document matches. */
  lemma EmptyFilterMatchesAll(body: FilterBody, a: Anime)
    requires !NonEmpty(body.types) && !NonEmpty(body.genres) && !NonEmpty(body.statuses)
    ensures Matches(FilterOf(body), a)
  {
  }

  /** Supplying a non-empty array only narrows the set of matches. */
  lemma FilterNarrows(body: FilterBody, a: Anime)
    ensures Matches(FilterOf(body), a) ==> Matches(FilterOf(body.(types := None)), a)
    ensures Matches(FilterOf(body), a) ==> Matches(FilterOf(body.(genres := None)), a)
    ensures Matches(FilterOf(body), a) ==> Matches(FilterOf(body.(statuses := None)), a)
  {
  }

  /** The documents of the catalog the store selects, in stored order. */
  function Matching(catalog: seq<Anime>, q: FilterQuery): (r: seq<Anime>)
    ensures forall i :: 0 <= i < |r| ==> r[i] in catalog && Matches(q, r[i])
    ensures forall i :: 0 <= i < |catalog| && Matches(q, catalog[i]) ==> catalog[i] in r
    ensures Selects(catalog, (a: Anime) => Matches(q, a), r)
  {
    Filter(catalog, (a: Anime) => Matches(q, a))
  }

  /** The filter with all three arrays absent or empty selects the whole catalog. */
  lemma EmptyFilterSelectsCatalog(catalog: seq<Anime>, body: FilterBody)
    requires !NonEmpty(body.types) && !NonEmpty(body.genres) && !NonEmpty(body.statuses)
    ensures Matching(catalog, FilterOf(body)) == catalog
  {
    FilterKeepsAll(catalog, (a: Anime) => Matches(FilterOf(body), a));
  }

  /** The query `{ status: s }` of a fixed status list (`Proximamente` for
      coming soon, `Finalizado` for finished, `EnEmision` for on air): the
      same documents as `filterAnimes` with that one status and no other array. */
  predicate InStatusList(s: AnimeStatus, a: Anime)
    ensures InStatusList(s, a) <==> Matches(FilterOf(FilterBody(None, None, Some([s]))), a)
  {
    a.status == s
  }

  /** The cutoff of the latest-episodes list, `Date.now() - 24*60*60*1000`,
      for a given `now` in milliseconds. */
  function LatestEpisodesCutoff(now: int): int {
    now - 24 * 60 * 60 * 1000
  }

  /** The query of the latest-episodes list: on air, and some embedded
      episode updated at or after the cutoff. */
  predicate InLatestEpisodes(now: int, a: Anime)
  {
    a.status == EnEmision
    && exists i :: 0 <= i < |a.episodes| && a.episodes[i].updatedAt >= LatestEpisodesCutoff(now)
  }

  /** As the clock advances the latest-episodes list can only lose documents. */
  lemma LatestEpisodesShrinkOverTime(earlier: int, later: int, a: Anime)
    requires earlier <= later
    ensures InLatestEpisodes(later, a) ==> InLatestEpisodes(earlier, a)
  {
  }

  /** The query of the latest-animes list: on air and released in `currentYear`. */
  predicate InLatestAnimes(currentYear: int, a: Anime)
  {
    a.status == EnEmision && a.year == Some(currentYear)
  }
}
