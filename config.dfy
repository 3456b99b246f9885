/** The front end's configuration values used by the modelled code. */
module Config {
  /** `walkingSpeed`, in metres per minute. */
  const WalkingSpeed := 80.0

  /** `minBoundSize`: the least gap between two travel-time bounds, in minutes. */
  const MinBoundSize := 5

  /** `colours`, one per bound, innermost first. */
  const Colours: seq<string> := ["green", "yellow", "orange", "red"]
}
