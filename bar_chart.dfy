/** index.js: the grouped bar chart of 2018 releases. Its `handleData`
    (index.js:49-66) keeps games released after 2017 by one of 16 known
    publishers with more than 20 user reviews, then drops the last of them
    by position. */
module BarChart {
  import opened Wrappers
  import opened JsNumber
  import opened Sequences
  import opened Games
  import opened Pipeline

  const Publishers: seq<string> := [
    "Blizzard Entertainment", "Disney Interactive Studios", "EA Sports", "Capcom",
    "EA Games", "Activision", "Rockstar Games", "Square Enix", "Namco Bandai Games",
    "Sega", "Microsoft Game Studios", "Ubisoft", "Nintendo", "Electronic Arts",
    "Bethesda Softworks", "Valve Software"]

  const Settings: Config := Config(2017, Publishers, Some(20), true)

  /** Builds one game per record, in order, then runs the stages one after
      the other; the result is the display set of the built games. */
  method HandleData(data: seq<RawGame>) returns (display: seq<Game>)
    requires forall i | 0 <= i < |data| :: data[i].releaseDate.Some?
    ensures AllReleased(NormaliseAll(data, Settings)) && AllWithUser(NormaliseAll(data, Settings))
    ensures display == SelectDisplaySet(NormaliseAll(data, Settings), Settings)
  {
    var games: seq<Game> := [];
    for i := 0 to |data|
      invariant |games| == i
      invariant forall k | 0 <= k < i :: games[k] == Normalise(data[k], true)
    {
      games := games + [Normalise(data[i], true)];
    }
    assert games == NormaliseAll(data, Settings);
    NormaliseAllShape(data, Settings);
    var newGames := KeepRecent(games, 2017);
    var knownGames := KeepKnown(newGames, Publishers);
    assert AllWithUser(knownGames) by {
      SubsequenceTransitive(knownGames, newGames, games);
      SubsequenceBounds(knownGames, games);
    }
    var reviewedByUsers := KeepReviewed(knownGames, 20);
    display := DropLast(reviewedByUsers);
  }

  /** What the bar chart shows: games built from the input, in input order,
      each with a release tail above 2017, a listed publisher and a defined
      user review total above 20; they are the games that pass all three
      tests, except the last of them. */
  lemma DisplayedGames(data: seq<RawGame>)
    requires forall i | 0 <= i < |data| :: data[i].releaseDate.Some?
    ensures var games := NormaliseAll(data, Settings);
      AllReleased(games) && AllWithUser(games)
      && var display := SelectDisplaySet(games, Settings);
         IsSubsequence(display, games)
         && (forall g | g in display ::
               TailAfter(g.release.value, 2017) && g.publisher.Some? && g.publisher.value in Publishers
               && g.user.Some? && g.user.value.total.Some? && g.user.value.total.value > 20)
         && display == DropLast(Filter(games, PassesTest(Settings)))
  {
    var games := NormaliseAll(data, Settings);
    NormaliseAllShape(data, Settings);
    DisplaySetIsOneFilter(games, Settings);
  }
}
