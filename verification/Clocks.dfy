/** What the picture side and the sound side share about the master clock. */
module Clocks {

  datatype SyncType = AudioMaster | VideoMaster | ExternalMaster

  /** Seconds: no correction is tried when the difference is this big. */
  const AV_NOSYNC_THRESHOLD: real := 10.0
}
