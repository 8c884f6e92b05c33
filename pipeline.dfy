/** The selection that `handleData` performs after building the games
    (index.js:54-65, tiedye.js:45-53), written once and configured per
    chart: a recency stage, a publisher allow-list stage, and, for the bar
    chart only, a user review stage and the removal of the last survivor. */
module Pipeline {
  import opened Wrappers
  import opened JsNumber
  import opened Sequences
  import opened Games

  /** What distinguishes the two scripts. `minUserReviews == Some(m)` means
      that the games carry a `user` object and that only those with more
      than `m` user reviews are kept; `None` means neither. */
  datatype Config = Config(
    cutoff: int, publishers: seq<string>, minUserReviews: Option<int>, dropLast: bool)

  /** `data.forEach(game => games.push(new Game(game)))`, as a value. */
  function NormaliseAll(data: seq<RawGame>, cfg: Config): (games: seq<Game>)
    ensures |games| == |data|
    ensures forall i | 0 <= i < |data| ::
      Restore(games[i]) == if cfg.minUserReviews.Some? then data[i] else WithoutUserCounts(data[i])
  {
    seq(|data|, i requires 0 <= i < |data| => Normalise(data[i], cfg.minUserReviews.Some?))
  }

  /** The built games carry the records' release dates, and a `user` object
      exactly when the configuration has a review stage. */
  lemma NormaliseAllShape(data: seq<RawGame>, cfg: Config)
    requires forall i | 0 <= i < |data| :: data[i].releaseDate.Some?
    ensures AllReleased(NormaliseAll(data, cfg))
    ensures forall g | g in NormaliseAll(data, cfg) :: g.user.Some? <==> cfg.minUserReviews.Some?
  {
    var games := NormaliseAll(data, cfg);
    forall g | g in games
      ensures g.release.Some? && (g.user.Some? <==> cfg.minUserReviews.Some?)
    {
      var i :| 0 <= i < |games| && games[i] == g;
      assert Restore(g).releaseDate == data[i].releaseDate;
    }
  }

  /** `game.release.slice(-5) > cutoff`. */
  predicate Recent(g: Game, cutoff: int) {
    g.release.Some? && TailAfter(g.release.value, cutoff)
  }

  /** `publishers.includes(game.publisher)`: exact, case-sensitive. */
  predicate KnownPublisher(g: Game, publishers: seq<string>) {
    g.publisher.Some? && g.publisher.value in publishers
  }

  /** `game.user.total > minimum`; a NaN total compares false. */
  predicate ReviewedByUsers(g: Game, minimum: int) {
    g.user.Some? && g.user.value.total.Some? && g.user.value.total.value > minimum
  }

  /** Every test of the configuration's stages. */
  predicate Passes(g: Game, cfg: Config) {
    Recent(g, cfg.cutoff) && KnownPublisher(g, cfg.publishers)
    && (cfg.minUserReviews.Some? ==> ReviewedByUsers(g, cfg.minUserReviews.value))
  }

  function RecentTest(cutoff: int): Game -> bool {
    g => Recent(g, cutoff)
  }

  function PublisherTest(publishers: seq<string>): Game -> bool {
    g => KnownPublisher(g, publishers)
  }

  function ReviewTest(minimum: int): Game -> bool {
    g => ReviewedByUsers(g, minimum)
  }

  function PassesTest(cfg: Config): Game -> bool {
    g => Passes(g, cfg)
  }

  /** `game.release.slice` throws on a game without a release date. */
  predicate AllReleased(games: seq<Game>) {
    forall g | g in games :: g.release.Some?
  }

  /** `game.user.total` throws on a game without a `user` object. */
  predicate AllWithUser(games: seq<Game>) {
    forall g | g in games :: g.user.Some?
  }

  /** The recency stage: the games whose release tail reads as a number
      above `cutoff`, in order, each as often as in the input. */
  function KeepRecent(games: seq<Game>, cutoff: int): (r: seq<Game>)
    requires AllReleased(games)
    ensures IsSubsequence(r, games)
    ensures forall g | g in r :: Recent(g, cutoff)
    ensures forall g :: multiset(r)[g] == if Recent(g, cutoff) then multiset(games)[g] else 0
  {
    FilterCounts(games, RecentTest(cutoff));
    Filter(games, RecentTest(cutoff))
  }

  /** The publisher stage: the games whose publisher is one of `publishers`,
      in order, each as often as in the input. */
  function KeepKnown(games: seq<Game>, publishers: seq<string>): (r: seq<Game>)
    ensures IsSubsequence(r, games)
    ensures forall g | g in r :: KnownPublisher(g, publishers)
    ensures forall g :: multiset(r)[g] == if KnownPublisher(g, publishers) then multiset(games)[g] else 0
  {
    FilterCounts(games, PublisherTest(publishers));
    Filter(games, PublisherTest(publishers))
  }

  /** The user review stage: the games with a defined total above
      `minimum`, in order, each as often as in the input. */
  function KeepReviewed(games: seq<Game>, minimum: int): (r: seq<Game>)
    requires AllWithUser(games)
    ensures IsSubsequence(r, games)
    ensures forall g | g in r :: ReviewedByUsers(g, minimum)
    ensures forall g :: multiset(r)[g] == if ReviewedByUsers(g, minimum) then multiset(games)[g] else 0
  {
    FilterCounts(games, ReviewTest(minimum));
    Filter(games, ReviewTest(minimum))
  }

  /** The survivors of the recency, publisher and (if configured) review
      stages. */
  function Survivors(games: seq<Game>, cfg: Config): (r: seq<Game>)
    requires AllReleased(games)
    requires cfg.minUserReviews.Some? ==> AllWithUser(games)
    ensures IsSubsequence(r, games)
    ensures forall g | g in r :: Passes(g, cfg)
  {
    var recent := KeepRecent(games, cfg.cutoff);
    var known := KeepKnown(recent, cfg.publishers);
    SubsequenceTransitive(known, recent, games);
    SubsequenceBounds(known, games);
    match cfg.minUserReviews
    case None => known
    case Some(m) =>
      var reviewed := KeepReviewed(known, m);
      SubsequenceTransitive(reviewed, known, games);
      reviewed
  }

  /** The sequence handed to `createVisualization`. */
  function SelectDisplaySet(games: seq<Game>, cfg: Config): (display: seq<Game>)
    requires AllReleased(games)
    requires cfg.minUserReviews.Some? ==> AllWithUser(games)
    ensures IsSubsequence(display, games)
    ensures forall g | g in display :: Passes(g, cfg)
  {
    var survivors := Survivors(games, cfg);
    if cfg.dropLast then
      var display := DropLast(survivors);
      PrefixIsSubsequence(survivors, |display|);
      SubsequenceTransitive(display, survivors, games);
      SubsequenceBounds(display, survivors);
      display
    else survivors
  }

  /** The stages in a row select exactly what one filter by all their tests
      selects: no stage drops a game that passes every test. */
  lemma SurvivorsAreOneFilter(games: seq<Game>, cfg: Config)
    requires AllReleased(games)
    requires cfg.minUserReviews.Some? ==> AllWithUser(games)
    ensures Survivors(games, cfg) == Filter(games, PassesTest(cfg))
  {
    var both := (g: Game) => Recent(g, cfg.cutoff) && KnownPublisher(g, cfg.publishers);
    FilterFuse(games, RecentTest(cfg.cutoff), PublisherTest(cfg.publishers), both);
    match cfg.minUserReviews
    case None =>
      FilterExtensional(games, both, PassesTest(cfg));
    case Some(m) =>
      FilterFuse(games, both, ReviewTest(m), PassesTest(cfg));
  }

  /** The display set is the games that pass every test, in input order,
      without the last of them when the configuration drops it. */
  lemma DisplaySetIsOneFilter(games: seq<Game>, cfg: Config)
    requires AllReleased(games)
    requires cfg.minUserReviews.Some? ==> AllWithUser(games)
    ensures var passing := Filter(games, PassesTest(cfg));
      SelectDisplaySet(games, cfg) == if cfg.dropLast then DropLast(passing) else passing
  {
    SurvivorsAreOneFilter(games, cfg);
  }

  /** Without the final drop, a game is displayed exactly as often as it
      occurs in the input if it passes every test, and never otherwise. */
  lemma DisplaySetComplete(games: seq<Game>, cfg: Config)
    requires AllReleased(games)
    requires cfg.minUserReviews.Some? ==> AllWithUser(games)
    requires !cfg.dropLast
    ensures forall g :: multiset(SelectDisplaySet(games, cfg))[g] == if Passes(g, cfg) then multiset(games)[g] else 0
  {
    DisplaySetIsOneFilter(games, cfg);
    FilterCounts(games, PassesTest(cfg));
  }

  /** For a release date that ends in a space and a four-digit year, as in
      "Oct 26, 2018", the recency test is a comparison of that year. */
  lemma YearDatedRecent(g: Game, cutoff: int)
    requires g.release.Some? && |g.release.value| >= 5
    requires IsJsSpace(g.release.value[|g.release.value| - 5])
    requires AllDigitsIn(g.release.value[|g.release.value| - 4..], 10)
    ensures Recent(g, cutoff) <==> ValueIn(g.release.value[|g.release.value| - 4..], 10) > cutoff
  {
    YearTail(g.release.value);
  }

  /** A game whose release date is written "YYYY-MM-DD" is never displayed:
      its tail "MM-DD" is NaN for JavaScript. */
  lemma IsoDatedGamesHidden(games: seq<Game>, cfg: Config, g: Game, year: string, month: string, day: string)
    requires AllReleased(games)
    requires cfg.minUserReviews.Some? ==> AllWithUser(games)
    requires |month| == 2 && AllDigitsIn(month, 10)
    requires |day| == 2 && AllDigitsIn(day, 10)
    requires g.release == Some(year + "-" + month + "-" + day)
    ensures g !in SelectDisplaySet(games, cfg)
  {
    IsoDateTailIsNaN(year, month, day);
  }

  /** The display set holds one game fewer than pass every test when the
      configuration drops the last survivor (none when none pass), and all
      of them otherwise. */
  lemma DisplaySetLength(games: seq<Game>, cfg: Config)
    requires AllReleased(games)
    requires cfg.minUserReviews.Some? ==> AllWithUser(games)
    ensures var n := |Filter(games, PassesTest(cfg))|;
      |SelectDisplaySet(games, cfg)| == if cfg.dropLast && n > 0 then n - 1 else n
  {
    DisplaySetIsOneFilter(games, cfg);
  }

  /** With the final drop, a game that passes every test but is the only
      one to do so is still not shown: the drop is by position, not by name. */
  lemma LoneSurvivorHidden(g: Game, cfg: Config)
    requires cfg.dropLast && g.release.Some?
    requires cfg.minUserReviews.Some? ==> g.user.Some?
    requires Passes(g, cfg)
    ensures SelectDisplaySet([g], cfg) == []
  {
    FilterSingleton(g, PassesTest(cfg));
    DisplaySetLength([g], cfg);
  }
}
