/** The pilotage snapshot record shared by both tables, and the host date
    services (JavaScript `Date`) that the engine calls but does not define. */
module PilotageData {

  datatype Option<T> = None | Some(value: T)

  /** One row of the upstream feed: the `PilotageData` record.
      Timestamps are kept as the raw strings the feed delivers. */
  datatype Snapshot = Snapshot(
    name: string,                 // pilotage_nm
    imo: string,                  // pilotage_imo
    requestTime: string,          // pilotage_cst_dt_time: when the service was requested
    endTime: Option<string>,      // pilotage_end_dt_time
    locTo: string,                // pilotage_loc_to_code: where the vessel is going
    snapshotTime: string,         // pilotage_snapshot_dt: when this snapshot was taken
    locFrom: string,              // pilotage_loc_from_code: where the vessel is coming from
    startTime: Option<string>,    // pilotage_start_dt_time
    arrivalTime: Option<string>,  // pilotage_arrival_dt_time: arrival at the boarding location
    onboardTime: Option<string>)  // pilotage_onboard_dt_time: pilot got on board

  /** JavaScript truthiness of a `string | null` field: present iff non-null and non-empty. */
  predicate Present(t: Option<string>)
  {
    t.Some? && t.value != ""
  }

  /** Which of the four optional lifecycle timestamps are present. */
  datatype Pattern = Pattern(arrival: bool, onboard: bool, start: bool, end: bool)

  function PatternOf(item: Snapshot): Pattern
  {
    Pattern(Present(item.arrivalTime), Present(item.onboardTime),
            Present(item.startTime), Present(item.endTime))
  }

  /** The host's date services, which are foreign calls:
      `parse` is `new Date(s).getTime()` (milliseconds since the epoch),
      `showSingapore` is `toLocaleString('en-GB', …, timeZone: 'Asia/Singapore')`,
      `showLocal` is the same rendering in the host's own time zone,
      `toIso` is `new Date(t).toISOString()`. */
  datatype Host = Host(parse: string -> int, showSingapore: int -> string, showLocal: int -> string,
                       toIso: int -> string)

  /** The ordering key of a row: `new Date(pilotage_snapshot_dt).getTime()`. */
  function CaptureTime(host: Host, r: Snapshot): int
  {
    host.parse(r.snapshotTime)
  }

  const MinuteMs: int := 60 * 1000
  const HourMs: int := 60 * MinuteMs
}
