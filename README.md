# Prime Video recommender

A Dafny model of `PrimeVideoRecommender`, which keeps a bounded history of
the Prime Video titles a customer most recently watched and recommends a
title from it. It has two operations:

- `watch(videoId)` looks the id up in a read-only catalog. An unknown id
  throws `IllegalArgumentException("Video does not exist.")`. A known id
  adds the catalog's title to the most-recently-used history.
- `getRecommendation()` returns null for an empty history. Otherwise it draws
  one random index in `[0, size)`. It returns null if the drawn title has no
  most-similar id. If it has one, it returns the catalog lookup of that id,
  which is null when the id is not in the catalog.

Files:

- `wrappers.dfy` (module `Wrappers`): `Option`, which stands for a nullable
  reference, and `Outcome`, which stands for a `void` call that may throw.
- `collaborators.dfy` (module `Collaborators`): the generic collaborators.
  `MostRecentlyUsed<T>` is a class whose `items` field `Add` updates in place.
  `ReadOnlyDao<K, V>` is an immutable map with a `Get` that may answer `None`.
- `movie.dfy` (module `Movie`): `PrimeVideo`, the `PrimeVideoRecommender`
  class, and the lemmas about it.

The random source is a function `nextInt: int -> int` that the caller passes
to each `GetRecommendation` call. `ValidRandom` only requires that for a
positive bound the result lies in `[0, bound)`. Nothing is claimed about
uniformity. Since `GetRecommendation` is a function that only reads the
history, it cannot change the history or the catalog. The catalog is a
`const` field of an immutable datatype, so nothing can modify it.

The code gives up after the first draw when the drawn title has no usable
most-similar id. The doc comment's EXTENSION paragraph describes a fallback
scan over the rest of the history. The code does not implement it. This model
follows the code, and `NoFallbackScenario` shows the difference.

## Model

| member | source | states |
|---|---|---|
| `Collaborators.AddBounded` | src/com/amazon/ata/generics/recommender/movie/PrimeVideoRecommender.java:47 | adding to the most-recently-used history grows it by one up to its capacity, makes the added title the newest entry, and keeps the newest old entries in order |
| `Collaborators.AddBoundedFrom` | src/com/amazon/ata/generics/recommender/movie/PrimeVideoRecommender.java:47 | every entry after an add is either an old entry or the added title, so a history drawn from a pool stays inside it |
| `Collaborators.MostRecentlyUsed.Add` | src/com/amazon/ata/generics/recommender/movie/PrimeVideoRecommender.java:47 | the in-place add keeps the size within capacity, and the new contents are `AddBounded` of the old contents |
| `Movie.PrimeVideoRecommender.constructor` | src/com/amazon/ata/generics/recommender/movie/PrimeVideoRecommender.java:28-33 | the recommender holds the history and the catalog it is given, and is ready for `Watch` when the history is |
| `Movie.PrimeVideoRecommender.Watch` | src/com/amazon/ata/generics/recommender/movie/PrimeVideoRecommender.java:42-48 | an unknown id fails with "Video does not exist." and leaves the history unchanged; a known id succeeds and adds exactly the catalog's title for that id; only the history can change; a history of catalog titles stays one |
| `Movie.PrimeVideoRecommender.GetRecommendation` | src/com/amazon/ata/generics/recommender/movie/PrimeVideoRecommender.java:62-74 | an empty history gives no recommendation; any recommendation is a catalog title stored under the most-similar id of some history entry; it only reads state |
| `Movie.DrawnEntryDecides` | src/com/amazon/ata/generics/recommender/movie/PrimeVideoRecommender.java:66-73 | the drawn index is a valid history index (the statement indexes the history with it); no most-similar id gives no recommendation; a dangling id gives no recommendation; otherwise the result is the catalog title for that id |
| `Movie.OnlyOneDraw` | src/com/amazon/ata/generics/recommender/movie/PrimeVideoRecommender.java:63-66 | the result depends on the random source only through one draw bounded by the history size, and not at all when the history is empty |
| `Movie.SomeDrawRecommends` | src/com/amazon/ata/generics/recommender/movie/PrimeVideoRecommender.java:66-73 | some draw recommends a title if and only if that title is the catalog title for the most-similar id of some history entry |
| `Movie.EveryDrawRecommends` | src/com/amazon/ata/generics/recommender/movie/PrimeVideoRecommender.java:66-73 | when every history entry has a most-similar id the catalog holds, every draw gives a recommendation |
| `Movie.NoFallbackScenario` | src/com/amazon/ata/generics/recommender/movie/PrimeVideoRecommender.java:68-72 | with catalog {1 similar to 2, 2 with no similar title}, watch 1, watch 2, and a draw of title 2, nothing is recommended; a draw of title 1 recommends title 2, so title 1's usable link is there but is not tried |
| `Movie.UnknownVideoScenario` | src/com/amazon/ata/generics/recommender/movie/PrimeVideoRecommender.java:43-46 | watching an id missing from the catalog fails with "Video does not exist." and the history stays empty |

## Left out

- `java.util.Random`: it is not modelled. Each call takes a caller-supplied draw in `[0, bound)`. No claim about uniformity is made.
- `MostRecentlyUsed`: its source is not part of this model. Its capacity, its eviction of the oldest entry on overflow and its index order (oldest first) are assumptions. They come from the container's name and the recommender's use of it, not from its code.
- `ReadOnlyDao`: its source is not part of this model. It is a plain map lookup that answers `None` for a missing key.
- `PrimeVideo`: its source is not part of this model. Only the id and the optional most-similar id are kept, because the recommender reads only those.
- The EXTENSION fallback scan in the doc comment of `getRecommendation`: the code does not implement it.
- Java exceptions and `null`: they become `Outcome.Fail` and `Option.None`.
- The `random` field: the random source is a parameter of `GetRecommendation` instead. Java's `Random` changes state on every draw, and a fixed function held in a field would repeat its draw.
- Concurrent use of the shared history and catalog: the source makes no promises about it.
