/** The two configuration enums of GameMode.kt. */
module GameMode {
  datatype GameType = SinglePlayer | TwoPlayer

  datatype Difficulty = Easy | Medium | Hard
}
