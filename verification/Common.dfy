/** Values that several components speak of. */
module Common {

  datatype Maybe<T> = None | Some(value: T) {
    function GetOr(default: T): T {
      if Some? then value else default
    }
  }

  /** The level of a device that may not share its user with another of its kind. */
  const MASTER: nat := 1

  /** A channel; maps keyed by the text `channelType&channelId` in the source are keyed by this
      value here, since the text determines it (`Keys.ChannelKeyInjective`). */
  datatype Chan = Chan(channelId: string, channelType: nat)
}
