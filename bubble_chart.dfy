/** tiedye.js: the circle-packing chart. Its `handleData` (tiedye.js:40-54)
    keeps games released after 2010 by one of 29 known publishers; it has no
    review stage and drops nothing by position. */
module BubbleChart {
  import opened Wrappers
  import opened JsNumber
  import opened Sequences
  import opened Games
  import opened Pipeline

  const Publishers: seq<string> := [
    "Jackbox Games, Inc.", "Bandai Namco Games", "Blizzard Entertainment",
    "Disney Interactive Studios", "Telltale Games", "Deep Silver", "Paradox Interactive",
    "NIS America", "EA Sports", "PopCap", "Capcom", "EA Games", "Atari", "Activision",
    "Zen Studios", "Rockstar Games", "Square Enix", "Namco Bandai Games", "Sega", "Konami",
    "Microsoft Game Studios", "2K Sports", "Ubisoft", "SCEA", "Nintendo", "Electronic Arts",
    "Warner Bros. Interactive Entertainment", "Bethesda Softworks", "Valve Software"]

  const Settings: Config := Config(2010, Publishers, None, false)

  /** Builds one game (without user reviews) per record, in order, then
      runs the two stages; the result is the display set of the built games. */
  method HandleData(data: seq<RawGame>) returns (display: seq<Game>)
    requires forall i | 0 <= i < |data| :: data[i].releaseDate.Some?
    ensures AllReleased(NormaliseAll(data, Settings))
    ensures display == SelectDisplaySet(NormaliseAll(data, Settings), Settings)
  {
    var games: seq<Game> := [];
    for i := 0 to |data|
      invariant |games| == i
      invariant forall k | 0 <= k < i :: games[k] == Normalise(data[k], false)
    {
      games := games + [Normalise(data[i], false)];
    }
    assert games == NormaliseAll(data, Settings);
    NormaliseAllShape(data, Settings);
    var newGames := KeepRecent(games, 2010);
    var knownGames := KeepKnown(newGames, Publishers);
    display := knownGames;
  }

  /** What the bubble chart shows: exactly the publisher-stage survivors,
      that is every built game (none with user reviews) whose release tail is
      above 2010 and whose publisher is listed, as often as it occurs, in
      input order. */
  lemma DisplayedGames(data: seq<RawGame>)
    requires forall i | 0 <= i < |data| :: data[i].releaseDate.Some?
    ensures var games := NormaliseAll(data, Settings);
      AllReleased(games)
      && var display := SelectDisplaySet(games, Settings);
         IsSubsequence(display, games)
         && (forall g | g in display ::
               g.user.None? && TailAfter(g.release.value, 2010)
               && g.publisher.Some? && g.publisher.value in Publishers)
         && (forall g :: multiset(display)[g]
                         == if Recent(g, 2010) && KnownPublisher(g, Publishers) then multiset(games)[g] else 0)
  {
    var games := NormaliseAll(data, Settings);
    NormaliseAllShape(data, Settings);
    var display := SelectDisplaySet(games, Settings);
    DisplaySetComplete(games, Settings);
    SubsequenceBounds(display, games);
  }
}
