/** The raw JSON record and the `Game` object that the `Game` constructor of
    index.js:1-40 and tiedye.js:1-30 builds from it. The constructor renames
    fields and, in index.js only, groups the user review counts with their
    total. Every field of the JSON record may be missing (`None`). */
module Games {
  import opened Wrappers

  /** One element of the JSON array, keyed as in the data file
      (`release_date`, `critic_positive`, `user_score`, ...). */
  datatype RawGame = RawGame(
    name: Option<string>,
    platform: Option<string>,
    developer: Option<string>,
    publisher: Option<string>,
    rating: Option<string>,
    releaseDate: Option<string>,
    criticPositive: Option<int>,
    criticNeutral: Option<int>,
    criticNegative: Option<int>,
    metascore: Option<real>,
    userScore: Option<real>,
    userPositive: Option<int>,
    userNegative: Option<int>,
    userNeutral: Option<int>)

  datatype CriticReviews = CriticReviews(positive: Option<int>, negative: Option<int>, neutral: Option<int>)

  /** `game.user` of index.js: the three counts and their total, which is
      NaN (`None`) as soon as one count is undefined. */
  datatype UserReviews = UserReviews(
    positive: Option<int>, negative: Option<int>, neutral: Option<int>, total: Option<int>)

  /** `user` is `None` for the games of tiedye.js, whose constructor sets no
      such property. */
  datatype Game = Game(
    name: Option<string>,
    platform: Option<string>,
    developer: Option<string>,
    publisher: Option<string>,
    esrb: Option<string>,
    release: Option<string>,
    critic: CriticReviews,
    user: Option<UserReviews>,
    score: Option<real>,
    userAverage: Option<real>)

  /** The sum invariant: the total is defined exactly when all three counts
      are, and then it is their sum. */
  predicate TotalIsSum(u: UserReviews) {
    (u.total.Some? <==> u.positive.Some? && u.negative.Some? && u.neutral.Some?)
    && (u.total.Some? ==> u.total.value == u.positive.value + u.negative.value + u.neutral.value)
  }

  /** `userPositive + userNegative + userNeutral`: undefined plus anything
      is NaN. */
  function Sum(a: Option<int>, b: Option<int>, c: Option<int>): (r: Option<int>)
    ensures r.Some? <==> a.Some? && b.Some? && c.Some?
    ensures r.Some? ==> r.value == a.value + b.value + c.value
  {
    match (a, b, c)
    case (Some(x), Some(y), Some(z)) => Some(x + y + z)
    case _ => None
  }

  /** The raw record a game was built from, keys renamed back; the user
      counts are undefined when the game carries no `user` object. */
  function Restore(g: Game): RawGame {
    RawGame(
      g.name, g.platform, g.developer, g.publisher, g.esrb, g.release,
      g.critic.positive, g.critic.neutral, g.critic.negative, g.score, g.userAverage,
      if g.user.Some? then g.user.value.positive else None,
      if g.user.Some? then g.user.value.negative else None,
      if g.user.Some? then g.user.value.neutral else None)
  }

  /** The raw record without its user counts, which tiedye.js ignores. */
  function WithoutUserCounts(raw: RawGame): RawGame {
    raw.(userPositive := None, userNegative := None, userNeutral := None)
  }

  /** `new Game(raw)`; `withUser` selects the index.js constructor, which
      also builds `user`. Every field of the record survives under its new
      key, the user counts only with `withUser`, and the total keeps the sum
      invariant. */
  function Normalise(raw: RawGame, withUser: bool): (g: Game)
    ensures Restore(g) == if withUser then raw else WithoutUserCounts(raw)
    ensures g.user.Some? <==> withUser
    ensures g.user.Some? ==> TotalIsSum(g.user.value)
  {
    Game(
      raw.name, raw.platform, raw.developer, raw.publisher, raw.rating, raw.releaseDate,
      CriticReviews(raw.criticPositive, raw.criticNegative, raw.criticNeutral),
      if withUser then
        Some(UserReviews(raw.userPositive, raw.userNegative, raw.userNeutral,
                         Sum(raw.userPositive, raw.userNegative, raw.userNeutral)))
      else None,
      raw.metascore, raw.userScore)
  }

  /** Where each key of the record goes in the game. */
  lemma FieldsRenamed(raw: RawGame, withUser: bool)
    ensures var g := Normalise(raw, withUser);
      g.name == raw.name && g.platform == raw.platform && g.developer == raw.developer
      && g.publisher == raw.publisher && g.esrb == raw.rating && g.release == raw.releaseDate
      && g.critic.positive == raw.criticPositive && g.critic.negative == raw.criticNegative
      && g.critic.neutral == raw.criticNeutral
      && g.score == raw.metascore && g.userAverage == raw.userScore
      && (withUser ==>
            g.user.value.positive == raw.userPositive && g.user.value.negative == raw.userNegative
            && g.user.value.neutral == raw.userNeutral)
  {
  }

  /** The tiedye.js constructor builds what the index.js constructor builds,
      minus the `user` object. */
  lemma BubbleGameHasNoUser(raw: RawGame)
    ensures Normalise(raw, false) == Normalise(raw, true).(user := None)
    ensures Normalise(raw, false).user.None?
  {
  }
}
