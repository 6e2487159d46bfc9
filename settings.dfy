/** The plugin's configuration: `via_servers`, `max_concurrent_jobs` and the
    `actions` dictionary, and how a `report_to_room` value is classified. */
module Settings {
  import opened Wrappers
  import opened Strings

  /** The `actions` dictionary. A key that is absent reads as its default, as
      `actions.get(key, default)` does. */
  datatype Actions = Actions(ignoreSfw: Option<bool>, directReply: Option<bool>,
                             redactNsfw: Option<bool>, reportToRoom: Option<string>)
  {
    function IgnoreSfw(): bool { ignoreSfw.GetOr(false) }
    function DirectReply(): bool { directReply.GetOr(false) }
    function RedactNsfw(): bool { redactNsfw.GetOr(false) }
    function ReportToRoom(): string { reportToRoom.GetOr("") }
  }

  /** The empty dictionary the plugin starts with. */
  const NoActions: Actions := Actions(None, None, None, None)

  /** The loaded configuration. */
  datatype Config = Config(viaServers: seq<string>, actions: Actions, maxConcurrentJobs: int)

  /** What a `report_to_room` value names: nothing, a room id (`!...`), a room
      alias (`#...`), or neither. */
  datatype TargetKind = Unset | RoomId | Alias | Invalid

  /** The branches of `start` on `report_to_room`, in the order the code
      tests them. */
  function ClassifyTarget(target: string): (k: TargetKind)
    ensures k == Unset <==> target == ""
    ensures k == Alias <==> |target| > 0 && target[0] == '#'
    ensures k == RoomId <==> |target| > 0 && target[0] == '!'
    ensures k == Invalid <==> |target| > 0 && target[0] != '#' && target[0] != '!'
  {
    if StartsWith(target, "#") then Alias
    else if target != "" && !StartsWith(target, "!") then Invalid
    else if target == "" then Unset
    else RoomId
  }
}
