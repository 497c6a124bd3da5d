/**
 * The documents of src/models/Anime.js and src/models/History.js.
 * Store-generated ObjectIds are natural numbers; optional schema paths are
 * `Option`s; timestamps are milliseconds since the epoch.
 */
module Models {
  import opened Wrappers

  type ObjectId = nat

  /** The `server` enum of an episode's server entry. */
  datatype ServerName = Fembed | MEGA | Netu | Okru | Stape | SW | YourUpload

  datatype Server = Server(server: ServerName, url: string)

  /** An embedded episode: its number, its playback servers and the
      `updatedAt` its own timestamps option maintains. */
  datatype Episode = Episode(episode: int, servers: seq<Server>, updatedAt: int)

  /** The anime lifecycle `status` enum: "Proximamente", "Finalizado" and
      "En emision" (the default of a new document). */
  datatype AnimeStatus = Proximamente | Finalizado | EnEmision

  datatype Anime = Anime(
    id: ObjectId,
    title: string,
    alternativeTitles: seq<string>,
    description: Option<string>,
    url: string,
    slug: string,
    poster: Option<string>,
    lastEpisode: Option<int>,
    genres: seq<string>,
    animeType: Option<string>,
    year: Option<int>,
    status: AnimeStatus,
    episodes: seq<Episode>)

  /** The watch-history `status` enum: "watching", "completed", "planned". */
  datatype HistoryStatus = Watching | Completed | Planned

  /** The value a new history entry gets when no `status` is supplied. */
  const DefaultHistoryStatus: HistoryStatus := Watching

  datatype HistoryEntry = HistoryEntry(
    userId: ObjectId,
    animeId: ObjectId,
    status: HistoryStatus,
    episodesWatched: seq<int>,
    lastEpisode: int)
}

/**
 * The errors the controllers hand to `next`: `new AppError(message, 404)`.
 * Every error of the modelled core is a 404 and differs only in its message.
 */
module Errors {
  datatype AppError = AppError(message: string, statusCode: int)

  const AnimeNotFound: AppError := AppError("Anime not found", 404)
  const EpisodeNotFound: AppError := AppError("Episode not found", 404)
  /** Raised by `getHistory`. */
  const NoUserWithId: AppError := AppError("No user found with that ID", 404)
  /** Raised by `addAnimeToHistory`. */
  const UserNotFound: AppError := AppError("User not found", 404)
  const HistoryEntryNotFound: AppError := AppError("History entry not found for this user and anime", 404)
}
