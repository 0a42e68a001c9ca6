/** Size bounds and objective weights of the crew-assignment model, with the three presets. */
module Config {

  datatype Config = Config(
    minCrewSize: int,
    maxCrewSize: int,
    friendWeight: int,
    genderWeight: int,
    yearWeight: int,
    historyWeight: int)
  {
    /** Usable bounds, non-negative weights, and an objective that is not identically zero. */
    predicate Valid() {
      && 0 <= minCrewSize <= maxCrewSize
      && friendWeight >= 0 && genderWeight >= 0 && yearWeight >= 0 && historyWeight >= 0
      && (friendWeight > 0 || genderWeight > 0 || yearWeight > 0 || historyWeight > 0)
    }
  }

  /** The dataclass defaults: crews of 5 to 7, friends weighted 2, each diversity goal 1. */
  function Default(): (c: Config)
    ensures c.Valid()
    ensures c.minCrewSize == 5 && c.maxCrewSize == 7
    ensures c.friendWeight == 2 && c.genderWeight == c.yearWeight == c.historyWeight == 1
  {
    Config(5, 7, 2, 1, 1, 1)
  }

  /** Friend preferences weighted 4, diversity goals 1, default size bounds. */
  function WithHighFriendWeight(): (c: Config)
    ensures c.Valid()
    ensures c.minCrewSize == Default().minCrewSize && c.maxCrewSize == Default().maxCrewSize
    ensures c.friendWeight == 4 && c.genderWeight == c.yearWeight == c.historyWeight == 1
    ensures c.friendWeight > Default().friendWeight
  {
    Config(minCrewSize := 5, maxCrewSize := 7,
           friendWeight := 4, genderWeight := 1, yearWeight := 1, historyWeight := 1)
  }

  /** Friend preferences weighted 1, each diversity goal 2, default size bounds. */
  function WithHighDiversity(): (c: Config)
    ensures c.Valid()
    ensures c.minCrewSize == Default().minCrewSize && c.maxCrewSize == Default().maxCrewSize
    ensures c.friendWeight == 1 && c.genderWeight == c.yearWeight == c.historyWeight == 2
    ensures c.genderWeight > c.friendWeight && c.genderWeight > Default().genderWeight
  {
    Config(minCrewSize := 5, maxCrewSize := 7,
           friendWeight := 1, genderWeight := 2, yearWeight := 2, historyWeight := 2)
  }
}
