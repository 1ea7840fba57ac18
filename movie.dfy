/** Recommends a Prime Video title from the titles most recently watched. */
module Movie {
  import opened Wrappers
  import opened Collaborators

  /** Java's `long`. */
  type Long = x: int | -0x8000_0000_0000_0000 <= x < 0x8000_0000_0000_0000

  /** A catalog title: its id and, if there is one, the id of the title most similar to it. */
  datatype PrimeVideo = PrimeVideo(id: Long, mostSimilarId: Option<Long>)

  /** The exception `watch` throws. */
  datatype Error = IllegalArgument(message: string)

  /**
   * `Random.nextInt(bound)`, supplied by the caller of each recommendation:
   * for a positive bound, some value in `[0, bound)`. Nothing is assumed
   * about which one.
   */
  type RandomSource = int -> int

  ghost predicate ValidRandom(nextInt: RandomSource) {
    forall bound :: 0 < bound ==> 0 <= nextInt(bound) < bound
  }

  /**
   * `video` is what the catalog holds under the most-similar id of some entry
   * of `history`.
   */
  ghost predicate SimilarToSomeEntry(history: seq<PrimeVideo>, dao: ReadOnlyDao<Long, PrimeVideo>, video: PrimeVideo) {
    exists i :: 0 <= i < |history| && history[i].mostSimilarId.Some? &&
      history[i].mostSimilarId.value in dao.entries && dao.entries[history[i].mostSimilarId.value] == video
  }

  class PrimeVideoRecommender {
    const mostRecentlyViewed: MostRecentlyUsed<PrimeVideo>
    const primeVideoDao: ReadOnlyDao<Long, PrimeVideo>

    ghost predicate Valid()
      reads mostRecentlyViewed
    {
      mostRecentlyViewed.Valid()
    }

    /** Every title in the history is a title of the catalog. */
    ghost predicate HistoryInCatalog()
      reads mostRecentlyViewed
    {
      forall i :: 0 <= i < |mostRecentlyViewed.items| ==>
        mostRecentlyViewed.items[i] in primeVideoDao.entries.Values
    }

    constructor (mostRecentlyViewed: MostRecentlyUsed<PrimeVideo>, primeVideoDao: ReadOnlyDao<Long, PrimeVideo>)
      requires mostRecentlyViewed.Valid()
      ensures Valid()
      ensures this.mostRecentlyViewed == mostRecentlyViewed && this.primeVideoDao == primeVideoDao
    {
      this.mostRecentlyViewed := mostRecentlyViewed;
      this.primeVideoDao := primeVideoDao;
    }

    /**
     * Records that the title `videoId` was watched. An id the catalog does not
     * hold is refused and the history is left as it was.
     */
    method Watch(videoId: Long) returns (outcome: Outcome<Error>)
      requires Valid()
      modifies mostRecentlyViewed
      ensures Valid()
      ensures videoId !in primeVideoDao.entries ==>
        outcome == Fail(IllegalArgument("Video does not exist.")) &&
        mostRecentlyViewed.items == old(mostRecentlyViewed.items)
      ensures videoId in primeVideoDao.entries ==>
        outcome == Pass &&
        mostRecentlyViewed.items == AddBounded(old(mostRecentlyViewed.items), mostRecentlyViewed.capacity, primeVideoDao.entries[videoId])
      ensures old(HistoryInCatalog()) ==> HistoryInCatalog()
    {
      var vid := primeVideoDao.Get(videoId);
      if vid.None? {
        return Fail(IllegalArgument("Video does not exist."));
      }
      ghost var before := mostRecentlyViewed.items;
      mostRecentlyViewed.Add(vid.value);
      if forall i :: 0 <= i < |before| ==> before[i] in primeVideoDao.entries.Values {
        AddBoundedFrom(before, mostRecentlyViewed.capacity, vid.value, primeVideoDao.entries.Values);
      }
      return Pass;
    }

    /**
     * Draws one entry of the history and recommends the catalog title most
     * similar to it; `None` when the history is empty, when the drawn entry has
     * no most-similar id, or when the catalog does not hold that id.
     */
    function GetRecommendation(nextInt: RandomSource): (r: Option<PrimeVideo>)
      requires ValidRandom(nextInt)
      reads mostRecentlyViewed
      ensures mostRecentlyViewed.items == [] ==> r == None
      ensures r.Some? ==> SimilarToSomeEntry(mostRecentlyViewed.items, primeVideoDao, r.value)
      ensures r.Some? ==> r.value in primeVideoDao.entries.Values
    {
      if mostRecentlyViewed.GetSize() == 0 then
        None
      else
        var randomIndex := nextInt(mostRecentlyViewed.GetSize());
        var randomVideo := mostRecentlyViewed.Get(randomIndex);
        var similarId := randomVideo.mostSimilarId;
        if similarId.None? then
          None
        else
          primeVideoDao.Get(similarId.value)
    }
  }

  /**
   * The drawn entry alone decides the recommendation: no other entry of the
   * history is tried when it has no most-similar id or when its id dangles.
   */
  lemma DrawnEntryDecides(rec: PrimeVideoRecommender, nextInt: RandomSource)
    requires ValidRandom(nextInt)
    requires |rec.mostRecentlyViewed.items| > 0
    ensures var history := rec.mostRecentlyViewed.items;
            var drawn := history[nextInt(|history|)];
            && (drawn.mostSimilarId.None? ==> rec.GetRecommendation(nextInt) == None)
            && (drawn.mostSimilarId.Some? && drawn.mostSimilarId.value !in rec.primeVideoDao.entries ==>
                  rec.GetRecommendation(nextInt) == None)
            && (drawn.mostSimilarId.Some? && drawn.mostSimilarId.value in rec.primeVideoDao.entries ==>
                  rec.GetRecommendation(nextInt) == Some(rec.primeVideoDao.entries[drawn.mostSimilarId.value]))
  {
  }

  /**
   * The random source is consulted once, with the history's size as bound,
   * and not at all when the history is empty: two sources that agree on that
   * one draw give the same recommendation.
   */
  lemma OnlyOneDraw(rec: PrimeVideoRecommender, nextInt: RandomSource, otherNextInt: RandomSource)
    requires ValidRandom(nextInt) && ValidRandom(otherNextInt)
    requires |rec.mostRecentlyViewed.items| > 0 ==>
      nextInt(|rec.mostRecentlyViewed.items|) == otherNextInt(|rec.mostRecentlyViewed.items|)
    ensures rec.GetRecommendation(nextInt) == rec.GetRecommendation(otherNextInt)
  {
  }

  /**
   * A title can be recommended (by some draw) exactly when it is the catalog
   * title under the most-similar id of some entry of the history.
   */
  lemma SomeDrawRecommends(rec: PrimeVideoRecommender, video: PrimeVideo)
    ensures (exists nextInt :: ValidRandom(nextInt) && rec.GetRecommendation(nextInt) == Some(video))
        <==> SimilarToSomeEntry(rec.mostRecentlyViewed.items, rec.primeVideoDao, video)
  {
    var history := rec.mostRecentlyViewed.items;
    if SimilarToSomeEntry(history, rec.primeVideoDao, video) {
      var i :| 0 <= i < |history| && history[i].mostSimilarId.Some? &&
        history[i].mostSimilarId.value in rec.primeVideoDao.entries &&
        rec.primeVideoDao.entries[history[i].mostSimilarId.value] == video;
      var nextInt: RandomSource := bound => if bound == |history| then i else 0;
      assert ValidRandom(nextInt);
      assert rec.GetRecommendation(nextInt) == Some(video);
    }
  }

  /** When every entry resolves to a catalog title, every draw gives a recommendation. */
  lemma EveryDrawRecommends(rec: PrimeVideoRecommender, nextInt: RandomSource)
    requires ValidRandom(nextInt)
    requires |rec.mostRecentlyViewed.items| > 0
    requires forall i :: 0 <= i < |rec.mostRecentlyViewed.items| ==>
      rec.mostRecentlyViewed.items[i].mostSimilarId.Some? &&
      rec.mostRecentlyViewed.items[i].mostSimilarId.value in rec.primeVideoDao.entries
    ensures rec.GetRecommendation(nextInt).Some?
  {
  }

  /**
   * Catalog {1: most similar 2, 2: no most-similar id}; watch 1, then 2; the
   * draw picks title 2. Nothing is recommended, although title 1's most
   * similar title is in the catalog (a draw of title 1 recommends it): the
   * rest of the history is not tried.
   */
  method NoFallbackScenario() returns (r: Option<PrimeVideo>, firstDrawn: Option<PrimeVideo>)
    ensures r == None
    ensures firstDrawn == Some(PrimeVideo(2, None))
  {
    var one := PrimeVideo(1, Some(2));
    var two := PrimeVideo(2, None);
    var history := new MostRecentlyUsed<PrimeVideo>(10);
    var rec := new PrimeVideoRecommender(history, ReadOnlyDao(map[1 := one, 2 := two]));
    var outcome := rec.Watch(1);
    outcome := rec.Watch(2);
    assert history.items == [one, two];
    var lastIndex: RandomSource := bound => bound - 1;
    r := rec.GetRecommendation(lastIndex);
    var firstIndex: RandomSource := bound => 0;
    firstDrawn := rec.GetRecommendation(firstIndex);
  }

  /** Watching an id the catalog does not hold fails and the history stays empty. */
  method UnknownVideoScenario() returns (outcome: Outcome<Error>, size: nat)
    ensures outcome == Fail(IllegalArgument("Video does not exist."))
    ensures size == 0
  {
    var history := new MostRecentlyUsed<PrimeVideo>(10);
    var rec := new PrimeVideoRecommender(history, ReadOnlyDao(map[1 := PrimeVideo(1, None)]));
    outcome := rec.Watch(99);
    size := history.GetSize();
  }
}
