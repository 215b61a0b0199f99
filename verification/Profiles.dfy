/** The four transport profiles a room can be created with; they fix every bound used elsewhere. */
module Profiles {
  import opened Bytes
  import opened Envelope

  datatype LaneBudget = LaneBudget(priority: int, maxPackets: nat, maxBytes: nat, dropOldest: bool)

  datatype FileLimits = FileLimits(maxFile: nat, maxMemory: nat, chunkBytes: nat, window: nat, maxRetries: nat)

  datatype Profile = Profile(
    version: byte, maxFrame: nat, buckets: seq<nat>, maxSkipped: nat,
    outboxPackets: nat, outboxBytes: nat,
    control: LaneBudget, voice: LaneBudget, text: LaneBudget, file: LaneBudget,
    files: FileLimits)
  {
    function Budget(lane: Lane): (b: LaneBudget)
    {
      match lane
      case Control => control
      case Voice => voice
      case Text => text
      case File => file
    }
  }

  const KB := 1024
  const MB := 1024 * KB

  const CONTROL_BUDGET := LaneBudget(100, 128, 2 * MB, false)
  const TEXT_BUDGET := LaneBudget(60, 256, 4 * MB, false)

  const BALANCED := Profile(2, 256 * KB, [4 * KB, 16 * KB, 64 * KB, 128 * KB], 512, 384, 16 * MB,
    CONTROL_BUDGET, LaneBudget(80, 12, 768 * KB, true), TEXT_BUDGET, LaneBudget(10, 16, 2 * MB, false),
    FileLimits(50 * MB, 50 * MB, 32 * KB, 4, 8))

  const LOW_DATA := Profile(2, 128 * KB, [4 * KB, 16 * KB, 64 * KB], 512, 192, 8 * MB,
    CONTROL_BUDGET, LaneBudget(80, 8, 384 * KB, true), TEXT_BUDGET, LaneBudget(10, 8, 1 * MB, false),
    FileLimits(25 * MB, 25 * MB, 16 * KB, 2, 10))

  const VOICE_FIRST := Profile(2, 256 * KB, [4 * KB, 16 * KB, 64 * KB], 512, 256, 10 * MB,
    CONTROL_BUDGET, LaneBudget(95, 10, 640 * KB, true), TEXT_BUDGET, LaneBudget(5, 8, 1 * MB, false),
    FileLimits(50 * MB, 50 * MB, 24 * KB, 2, 8))

  const MAXIMUM_PRIVACY := Profile(2, 256 * KB, [64 * KB, 128 * KB], 512, 192, 24 * MB,
    CONTROL_BUDGET, LaneBudget(85, 16, 1 * MB, true), TEXT_BUDGET, LaneBudget(10, 8, 1 * MB, false),
    FileLimits(25 * MB, 25 * MB, 24 * KB, 2, 10))

  const ALL: set<Profile> := {BALANCED, LOW_DATA, VOICE_FIRST, MAXIMUM_PRIVACY}
}
