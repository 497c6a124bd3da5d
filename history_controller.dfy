/**
 * The watch-history ledger of src/controllers/history.controller.js. The
 * users, the Anime documents and the History documents the controllers reach
 * through the store are the fields of one `Ledger` object; History documents
 * are kept in insertion order, which is the order `find`, `findOne` and
 * `findOneAndDelete` see them in.
 */
module HistoryController {
  import opened Wrappers
  import opened JsBuiltins
  import opened Models
  import opened Errors
  import AnimeController

  // ---------------------------------------------------------------------
  // Selecting entries
  // ---------------------------------------------------------------------

  /** The query `{ userId, animeId }`. */
  predicate IsEntryFor(e: HistoryEntry, userId: ObjectId, animeId: ObjectId) {
    e.userId == userId && e.animeId == animeId
  }

  /** `History.findOne({ userId, animeId })`: the position of the first match. */
  function FindEntry(entries: seq<HistoryEntry>, userId: ObjectId, animeId: ObjectId): (r: Option<nat>)
    ensures r.None? <==> forall i :: 0 <= i < |entries| ==> !IsEntryFor(entries[i], userId, animeId)
    ensures r.Some? ==> r.value < |entries| && IsEntryFor(entries[r.value], userId, animeId)
    ensures r.Some? ==> forall j :: 0 <= j < r.value ==> !IsEntryFor(entries[j], userId, animeId)
  {
    FindIndex(entries, (e: HistoryEntry) => IsEntryFor(e, userId, animeId))
  }

  /** Every entry of the pair, in insertion order. */
  function EntriesFor(entries: seq<HistoryEntry>, userId: ObjectId, animeId: ObjectId): seq<HistoryEntry> {
    Filter(entries, (e: HistoryEntry) => IsEntryFor(e, userId, animeId))
  }

  /** `History.find({ userId })`: every entry of the user, in insertion order. */
  function UserEntries(entries: seq<HistoryEntry>, userId: ObjectId): (r: seq<HistoryEntry>)
    ensures forall i :: 0 <= i < |r| ==> r[i] in entries && r[i].userId == userId
    ensures forall i :: 0 <= i < |entries| && entries[i].userId == userId ==> entries[i] in r
    ensures Selects(entries, (e: HistoryEntry) => e.userId == userId, r)
  {
    Filter(entries, (e: HistoryEntry) => e.userId == userId)
  }

  /** The entries without the one at position `i`. */
  function RemoveAt(entries: seq<HistoryEntry>, i: nat): (r: seq<HistoryEntry>)
    requires i < |entries|
    ensures |r| == |entries| - 1
    ensures forall j :: 0 <= j < i ==> r[j] == entries[j]
    ensures forall j :: i <= j < |r| ==> r[j] == entries[j + 1]
  {
    entries[..i] + entries[i + 1..]
  }

  /** Appending an entry of the pair adds exactly one entry of the pair:
      nothing de-duplicates. */
  lemma AppendAddsEntry(entries: seq<HistoryEntry>, e: HistoryEntry)
    ensures EntriesFor(entries + [e], e.userId, e.animeId) == EntriesFor(entries, e.userId, e.animeId) + [e]
  {
    FilterConcat(entries, [e], (x: HistoryEntry) => IsEntryFor(x, e.userId, e.animeId));
  }

  /** Removing the first entry of a pair removes exactly that one entry of
      the pair; every other entry stays, in order. */
  lemma RemoveFirstEntry(entries: seq<HistoryEntry>, userId: ObjectId, animeId: ObjectId)
    requires FindEntry(entries, userId, animeId).Some?
    ensures var i := FindEntry(entries, userId, animeId).value;
            EntriesFor(entries, userId, animeId)
            == [entries[i]] + EntriesFor(RemoveAt(entries, i), userId, animeId)
  {
    var i := FindEntry(entries, userId, animeId).value;
    var p := (e: HistoryEntry) => IsEntryFor(e, userId, animeId);
    var before, x, after := entries[..i], entries[i], entries[i + 1..];
    assert entries == before + ([x] + after);
    assert RemoveAt(entries, i) == before + after;
    assert Filter(before, p) == [] by {
      NoneQualify(before, p);
    }
    assert Filter([x], p) == [x] by {
      assert [x][1..] == [];
    }
    FilterConcat([x], after, p);
    FilterConcat(before, [x] + after, p);
    FilterConcat(before, after, p);
    assert Filter(entries, p) == [x] + Filter(after, p);
    assert Filter(RemoveAt(entries, i), p) == Filter(after, p);
  }

  lemma {:induction false} NoneQualify<T(!new)>(s: seq<T>, p: T -> bool)
    requires forall i :: 0 <= i < |s| ==> !p(s[i])
    ensures Filter(s, p) == []
  {
    if s != [] {
      NoneQualify(s[1..], p);
    }
  }

  /** When a pair has a single entry, deleting it leaves none, so a second
      delete of the pair is "History entry not found". */
  lemma DeleteOnlyEntryLeavesNone(entries: seq<HistoryEntry>, userId: ObjectId, animeId: ObjectId)
    requires |EntriesFor(entries, userId, animeId)| == 1
    ensures FindEntry(entries, userId, animeId).Some?
    ensures FindEntry(RemoveAt(entries, FindEntry(entries, userId, animeId).value), userId, animeId).None?
  {
    var p := (e: HistoryEntry) => IsEntryFor(e, userId, animeId);
    if FindEntry(entries, userId, animeId).None? {
      NoneQualify(entries, p);
      assert false;
    }
    RemoveFirstEntry(entries, userId, animeId);
    var rest := RemoveAt(entries, FindEntry(entries, userId, animeId).value);
    assert Filter(rest, p) == [];
    if FindEntry(rest, userId, animeId).Some? {
      assert false;
    }
  }

  // ---------------------------------------------------------------------
  // Partial merge (updateAnimeHistory)
  // ---------------------------------------------------------------------

  /** The request body of an update; a missing field is `None`. */
  datatype HistoryPatch = HistoryPatch(status: Option<HistoryStatus>, episodesWatched: Option<seq<int>>, lastEpisode: Option<int>)

  /** JavaScript truthiness of the supplied fields: a status string from the
      enum and any array (even an empty one) are truthy; a number is truthy
      unless it is 0. */
  predicate SuppliesStatus(patch: HistoryPatch) { patch.status.Some? }
  predicate SuppliesEpisodes(patch: HistoryPatch) { patch.episodesWatched.Some? }
  predicate SuppliesLastEpisode(patch: HistoryPatch) { patch.lastEpisode.Some? && patch.lastEpisode.value != 0 }

  /** The entry after the update: every truthy field of the body overwrites,
      every other field keeps its value, and the pair never changes. */
  function Merge(e: HistoryEntry, patch: HistoryPatch): (r: HistoryEntry)
    ensures r.userId == e.userId && r.animeId == e.animeId
    ensures !SuppliesStatus(patch) ==> r.status == e.status
    ensures !SuppliesEpisodes(patch) ==> r.episodesWatched == e.episodesWatched
    ensures !SuppliesLastEpisode(patch) ==> r.lastEpisode == e.lastEpisode
    ensures SuppliesStatus(patch) ==> r.status == patch.status.value
    ensures SuppliesEpisodes(patch) ==> r.episodesWatched == patch.episodesWatched.value
    ensures SuppliesLastEpisode(patch) ==> r.lastEpisode == patch.lastEpisode.value
  {
    HistoryEntry(
      e.userId,
      e.animeId,
      if SuppliesStatus(patch) then patch.status.value else e.status,
      if SuppliesEpisodes(patch) then patch.episodesWatched.value else e.episodesWatched,
      if SuppliesLastEpisode(patch) then patch.lastEpisode.value else e.lastEpisode)
  }

  /** Applying the same update twice is applying it once. */
  lemma MergeIdempotent(e: HistoryEntry, patch: HistoryPatch)
    ensures Merge(Merge(e, patch), patch) == Merge(e, patch)
  {
  }

  /** An update that supplies nothing truthy (an absent body field, or
      `lastEpisode: 0`) leaves the entry as it was. */
  lemma MergeFalsyIsIdentity(e: HistoryEntry)
    ensures Merge(e, HistoryPatch(None, None, None)) == e
    ensures Merge(e, HistoryPatch(None, None, Some(0))) == e
  {
  }

  /** `{ lastEpisode: 5 }` on a "watching" entry: still watching, at episode 5. */
  lemma LastEpisodeOnlyUpdate(e: HistoryEntry)
    requires e.status == Watching
    ensures Merge(e, HistoryPatch(None, None, Some(5))) == e.(lastEpisode := 5)
    ensures Merge(e, HistoryPatch(None, None, Some(5))).status == Watching
  {
  }

  // ---------------------------------------------------------------------
  // The getHistory projection
  // ---------------------------------------------------------------------

  /** The reduced anime the projection puts in place of a populated `animeId`. */
  datatype AnimeSummary = AnimeSummary(slug: string, title: string, poster: Option<string>, synopsis: Option<string>, genres: seq<string>)

  /** Where the entry's anime reference ended up: replaced by a summary, or
      left as populate left it (null) when no Anime has that id. */
  datatype AnimeRef = Summarised(summary: AnimeSummary) | Unresolved

  datatype HistoryView = HistoryView(userId: ObjectId, anime: AnimeRef, status: HistoryStatus, episodesWatched: seq<int>, lastEpisode: int)

  /** The `getHistory` response: `results` and `data.history`. */
  datatype UserHistory = UserHistory(results: nat, history: seq<HistoryView>)

  /** `populate({ path: 'animeId' })`: the first Anime with that id. */
  function FindById(animes: seq<Anime>, id: ObjectId): (r: Option<Anime>)
    ensures r.None? <==> forall i :: 0 <= i < |animes| ==> animes[i].id != id
    ensures r.Some? ==> r.value in animes && r.value.id == id
  {
    match FindIndex(animes, (a: Anime) => a.id == id)
    case None => None
    case Some(i) => Some(animes[i])
  }

  function Summarise(a: Anime): (s: AnimeSummary)
    ensures s.slug == a.slug && s.title == a.title && s.poster == a.poster
    ensures s.synopsis == a.description && s.genres == a.genres
  {
    AnimeSummary(a.slug, a.title, a.poster, a.description, a.genres)
  }

  /** One entry of the projection: the progress fields are copied, and the
      anime reference is summarised exactly when it resolves. */
  function Project(animes: seq<Anime>, e: HistoryEntry): (v: HistoryView)
    ensures v.userId == e.userId && v.status == e.status
    ensures v.episodesWatched == e.episodesWatched && v.lastEpisode == e.lastEpisode
    ensures v.anime.Unresolved? <==> forall i :: 0 <= i < |animes| ==> animes[i].id != e.animeId
    ensures v.anime.Summarised? ==> exists a :: a in animes && a.id == e.animeId && v.anime.summary == Summarise(a)
  {
    var ref := match FindById(animes, e.animeId)
      case None => Unresolved
      case Some(a) => Summarised(Summarise(a));
    HistoryView(e.userId, ref, e.status, e.episodesWatched, e.lastEpisode)
  }

  function ProjectAll(animes: seq<Anime>, es: seq<HistoryEntry>): (vs: seq<HistoryView>)
    ensures |vs| == |es|
    ensures forall k :: 0 <= k < |es| ==> vs[k] == Project(animes, es[k])
  {
    if es == [] then [] else [Project(animes, es[0])] + ProjectAll(animes, es[1..])
  }

  /** The result of `addAnimeToHistory`: the new entry and the slug it was added by. */
  datatype AddedEntry = AddedEntry(history: HistoryEntry, slug: string)

  // ---------------------------------------------------------------------
  // The ledger
  // ---------------------------------------------------------------------

  class Ledger {
    /** The ids `User.findById` finds. */
    var users: set<ObjectId>
    /** The Anime documents, in stored order. */
    var animes: seq<Anime>
    /** The History documents, in insertion order. */
    var entries: seq<HistoryEntry>

    constructor (users: set<ObjectId>, animes: seq<Anime>)
      ensures this.users == users && this.animes == animes && entries == []
    {
      this.users := users;
      this.animes := animes;
      entries := [];
    }

    /** `Anime.findOne({ slug })._id`. */
    function ResolveSlug(slug: string): (r: Option<ObjectId>)
      reads this`animes
      ensures r.None? <==> forall i :: 0 <= i < |animes| ==> animes[i].slug != slug
      ensures r.Some? ==> exists i :: 0 <= i < |animes| && animes[i].slug == slug && animes[i].id == r.value
                                     && forall j :: 0 <= j < i ==> animes[j].slug != slug
    {
      match AnimeController.FindBySlug(animes, slug)
      case None => None
      case Some(a) => Some(a.id)
    }

    /** `addAnimeToHistory`: the user must exist, then the slug must resolve;
        the new entry is appended without looking for an existing one. */
    method AddAnimeToHistory(userId: ObjectId, animeSlug: string, status: Option<HistoryStatus>)
      returns (r: Result<AddedEntry, AppError>)
      modifies this`entries
      ensures userId !in users ==> r == Err(UserNotFound) && entries == old(entries)
      ensures userId in users && ResolveSlug(animeSlug).None? ==> r == Err(AnimeNotFound) && entries == old(entries)
      ensures userId in users && ResolveSlug(animeSlug).Some? ==>
                var added := HistoryEntry(userId, ResolveSlug(animeSlug).value,
                                          if status.Some? then status.value else DefaultHistoryStatus, [], 0);
                r == Ok(AddedEntry(added, animeSlug)) && entries == old(entries) + [added]
    {
      if userId !in users {
        return Err(UserNotFound);
      }
      var anime := AnimeController.FindBySlug(animes, animeSlug);
      if anime.None? {
        return Err(AnimeNotFound);
      }
      var newHistory := HistoryEntry(userId, anime.value.id,
                                     if status.Some? then status.value else DefaultHistoryStatus, [], 0);
      entries := entries + [newHistory];
      r := Ok(AddedEntry(newHistory, anime.value.slug));
    }

    /** `getHistory`: the user must exist; every entry of the user, in
        insertion order, with its anime reference projected. */
    function GetHistory(userId: ObjectId): (r: Result<UserHistory, AppError>)
      reads this
      ensures r.Err? <==> userId !in users
      ensures r.Err? ==> r.error == NoUserWithId
      ensures r.Ok? ==> r.value.results == |r.value.history| == |UserEntries(entries, userId)|
      ensures r.Ok? ==> forall k :: 0 <= k < |r.value.history| ==>
                          r.value.history[k] == Project(animes, UserEntries(entries, userId)[k])
    {
      if userId !in users then Err(NoUserWithId)
      else
        var history := ProjectAll(animes, UserEntries(entries, userId));
        Ok(UserHistory(|history|, history))
    }

    /** `getAnimeHistory`: the slug must resolve, then the pair must have an
        entry; the user is not looked up. */
    function GetAnimeHistory(userId: ObjectId, animeSlug: string): (r: Result<HistoryEntry, AppError>)
      reads this
      ensures r == Err(AnimeNotFound) <==> ResolveSlug(animeSlug).None?
      ensures r == Err(HistoryEntryNotFound) <==>
                ResolveSlug(animeSlug).Some? && FindEntry(entries, userId, ResolveSlug(animeSlug).value).None?
      ensures r.Ok? <==> ResolveSlug(animeSlug).Some? && FindEntry(entries, userId, ResolveSlug(animeSlug).value).Some?
      ensures r.Ok? ==> IsEntryFor(r.value, userId, ResolveSlug(animeSlug).value)
                        && r.value == entries[FindEntry(entries, userId, ResolveSlug(animeSlug).value).value]
    {
      match ResolveSlug(animeSlug)
      case None => Err(AnimeNotFound)
      case Some(animeId) =>
        match FindEntry(entries, userId, animeId)
        case None => Err(HistoryEntryNotFound)
        case Some(i) => Ok(entries[i])
    }

    /** `updateAnimeHistory`: the slug must resolve, then the pair must have
        an entry; its first entry is merged with the body in place. */
    method UpdateAnimeHistory(userId: ObjectId, animeSlug: string, patch: HistoryPatch)
      returns (r: Result<HistoryEntry, AppError>)
      modifies this`entries
      ensures ResolveSlug(animeSlug).None? ==> r == Err(AnimeNotFound) && entries == old(entries)
      ensures ResolveSlug(animeSlug).Some? && FindEntry(old(entries), userId, ResolveSlug(animeSlug).value).None? ==>
                r == Err(HistoryEntryNotFound) && entries == old(entries)
      ensures ResolveSlug(animeSlug).Some? && FindEntry(old(entries), userId, ResolveSlug(animeSlug).value).Some? ==>
                var i := FindEntry(old(entries), userId, ResolveSlug(animeSlug).value).value;
                r == Ok(Merge(old(entries)[i], patch)) && entries == old(entries)[i := r.value]
    {
      var animeId := ResolveSlug(animeSlug);
      if animeId.None? {
        return Err(AnimeNotFound);
      }
      var found := FindEntry(entries, userId, animeId.value);
      if found.None? {
        return Err(HistoryEntryNotFound);
      }
      var history := entries[found.value];
      if SuppliesStatus(patch) { history := history.(status := patch.status.value); }
      if SuppliesEpisodes(patch) { history := history.(episodesWatched := patch.episodesWatched.value); }
      if SuppliesLastEpisode(patch) { history := history.(lastEpisode := patch.lastEpisode.value); }
      entries := entries[found.value := history];
      r := Ok(history);
    }

    /** `deleteAnimeFromHistory`: the slug must resolve, then the pair must
        have an entry; its first entry is removed and nothing else. */
    method DeleteAnimeFromHistory(userId: ObjectId, animeSlug: string) returns (r: Result<HistoryEntry, AppError>)
      modifies this`entries
      ensures ResolveSlug(animeSlug).None? ==> r == Err(AnimeNotFound) && entries == old(entries)
      ensures ResolveSlug(animeSlug).Some? && FindEntry(old(entries), userId, ResolveSlug(animeSlug).value).None? ==>
                r == Err(HistoryEntryNotFound) && entries == old(entries)
      ensures ResolveSlug(animeSlug).Some? && FindEntry(old(entries), userId, ResolveSlug(animeSlug).value).Some? ==>
                var i := FindEntry(old(entries), userId, ResolveSlug(animeSlug).value).value;
                r == Ok(old(entries)[i]) && entries == RemoveAt(old(entries), i)
    {
      var animeId := ResolveSlug(animeSlug);
      if animeId.None? {
        return Err(AnimeNotFound);
      }
      var found := FindEntry(entries, userId, animeId.value);
      if found.None? {
        return Err(HistoryEntryNotFound);
      }
      r := Ok(entries[found.value]);
      entries := RemoveAt(entries, found.value);
    }
  }

  /** Adding the same anime twice for a user leaves two equal entries; the
      first delete removes one of them and a delete of the last is followed
      by "History entry not found". */
  method DuplicateAddScenario(anime: Anime) {
    var ledger := new Ledger({1}, [anime]);
    var a1 := ledger.AddAnimeToHistory(1, anime.slug, None);
    var a2 := ledger.AddAnimeToHistory(1, anime.slug, None);
    assert ledger.entries == [HistoryEntry(1, anime.id, Watching, [], 0), HistoryEntry(1, anime.id, Watching, [], 0)];
    var d1 := ledger.DeleteAnimeFromHistory(1, anime.slug);
    assert d1.Ok? && |ledger.entries| == 1;
    var d2 := ledger.DeleteAnimeFromHistory(1, anime.slug);
    assert d2.Ok? && ledger.entries == [];
    var d3 := ledger.DeleteAnimeFromHistory(1, anime.slug);
    assert d3 == Err(HistoryEntryNotFound);
  }
}
