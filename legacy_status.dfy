/** The status engine of the earlier table (`my-app`): English only, the
    host's own time zone, a "far ahead" window for arrivals requested more
    than a day ahead, and no case for a vessel moving between anchorages. */
module LegacyStatus {
  import opened PilotageData
  import opened TimeFormat
  import opened RuleTable
  import VesselStatus
  import StatusMessages

  /** `formatDateTime` of the earlier table: "N/A" for a null or empty
      timestamp, otherwise the host-zone rendering of `new Date(s.trim())`. */
  function LegacyFormat(host: Host, raw: Option<string>): (r: string)
    ensures !Present(raw) ==> r == "N/A"
    ensures Present(raw) ==> r == host.showLocal(host.parse(Trim(raw.value)))
  {
    if !Present(raw) then "N/A" else host.showLocal(host.parse(Trim(raw.value)))
  }

  /** The two tables format a timestamp alike when it already carries the
      UTC designator and the host's zone renders as Singapore does; an absent
      one is "N/A" in both. */
  lemma FormatsAgreeOnUtc(host: Host, raw: Option<string>)
    requires forall t :: host.showLocal(t) == host.showSingapore(t)
    requires Present(raw) ==> EndsWithZ(Trim(raw.value))
    ensures LegacyFormat(host, raw) == FormatDateTime(host, raw)
    ensures !Present(raw) ==> LegacyFormat(host, raw) == "N/A"
  {
  }

  /** `formatDateTime(new Date(t).toISOString())`. */
  function LegacyFormatInstant(host: Host, t: int): string
  {
    LegacyFormat(host, Some(host.toIso(t)))
  }

  /** What a row's status says, before it is rendered. */
  datatype LegacyStatus =
    | ArrivedAtAnchor(loc: string, endTime: Option<string>)
    | EstimatedWindow(opens: int, closes: int)
    | ArrivedAt(name: string, loc: string, arrivalTime: Option<string>)
    | PilotOnboarded(name: string, onboardTime: Option<string>)
    | DrivingIn(name: string, loc: string)
    | LeftSingapore(name: string)
    | AtAnchor(name: string, loc: string, departureTime: Option<string>)
    | AboutToDriveOff(name: string, onboardTime: Option<string>)
    | DrivingOut(name: string, loc: string)
    | ArrivedAtBoardingGround(name: string, loc: string, arrivalTime: Option<string>)
    | StatusUnknown

  const UnknownText: string := "Status unknown."

  /** The template strings of the earlier table. The templates that open
      with a vessel name are longer than the unknown text, the others open
      with another letter, so only the unknown status renders as it. */
  function Text(host: Host, s: LegacyStatus): (r: string)
    ensures r == UnknownText <==> s == StatusUnknown
  {
    assert UnknownText[0] == 'S' && |UnknownText| == 15;
    match s
    case ArrivedAtAnchor(loc, t) =>
      "Has arrived at anchor (" + (loc + ") at " + LegacyFormat(host, t) + ", reaching port within 30mins.")
    case EstimatedWindow(opens, closes) =>
      "Vessel is estimated to arrive between " + (LegacyFormatInstant(host, opens) +
      " and " + LegacyFormatInstant(host, closes) + ".")
    case ArrivedAt(name, loc, t) =>
      name + " has arrived at " + loc + " at " + LegacyFormat(host, t) + "."
    case PilotOnboarded(name, t) =>
      "Pilot has onboarded " + (name + " at " + LegacyFormat(host, t) + ". Estimated arrival in about 1 hour.")
    case DrivingIn(name, loc) =>
      "Pilot is driving " + (name + " to " + loc + ", will arrive in 30 minutes.")
    case LeftSingapore(name) =>
      name + " has left Singapore."
    case AtAnchor(name, loc, t) =>
      name + " is at anchor (" + loc + "). Estimated departure at " + LegacyFormat(host, t) + "."
    case AboutToDriveOff(name, t) =>
      "Pilot is about to drive " + (name + " off. Onboard time: " + LegacyFormat(host, t) + ".")
    case DrivingOut(name, loc) =>
      "Pilot is driving " + (name + " to " + loc + ".")
    case ArrivedAtBoardingGround(name, loc, t) =>
      name + " arrived at " + loc + " at " + LegacyFormat(host, t) + "."
    case StatusUnknown =>
      UnknownText
  }

  /** Which template a status uses. */
  datatype Kind =
    | Anchored | Window | Arrived | Onboarded | Inbound
    | Departed | Waiting | Boarding | Outbound | AtGround | Unknown

  function KindOf(s: LegacyStatus): Kind
  {
    match s
    case ArrivedAtAnchor(_, _) => Anchored
    case EstimatedWindow(_, _) => Window
    case ArrivedAt(_, _, _) => Arrived
    case PilotOnboarded(_, _) => Onboarded
    case DrivingIn(_, _) => Inbound
    case LeftSingapore(_) => Departed
    case AtAnchor(_, _, _) => Waiting
    case AboutToDriveOff(_, _) => Boarding
    case DrivingOut(_, _) => Outbound
    case ArrivedAtBoardingGround(_, _, _) => AtGround
    case StatusUnknown => Unknown
  }

  /** `(requestTime - currentTime) / (1000 * 60 * 60) > 24`, the hours ahead
      as a real quotient. On whole milliseconds it exceeds 24 exactly when
      the request lies more than a day after `now`. */
  function FarAhead(host: Host, item: Snapshot, now: int): (far: bool)
    ensures far <==> host.parse(item.requestTime) > now + 24 * HourMs
  {
    var d := (host.parse(item.requestTime) - now) as real;
    var h := (1000 * 60 * 60) as real;
    assert h == 3600000.0 == HourMs as real;
    assert d / h > 24.0 <==> d > 24.0 * h;
    d / h > 24.0
  }

  /** The timestamp rows `getArrivingStatus` tries after the window test, in
      source order; it never looks at the end time there. Columns: arrival,
      onboard, start, end. */
  const ArrivingRules: seq<Rule<Kind>> := [
    Rule(Set, Unset, Unset, Any, Arrived),
    Rule(Set, Set, Unset, Any, Onboarded),
    Rule(Set, Set, Set, Any, Inbound)
  ]

  /** `getLeavingStatus`'s rows, in source order. */
  const LeavingRules: seq<Rule<Kind>> := [
    Rule(Any, Any, Any, Set, Departed),
    Rule(Unset, Unset, Unset, Any, Waiting),
    Rule(Unset, Set, Unset, Any, Boarding),
    Rule(Unset, Set, Set, Any, Outbound),
    Rule(Set, Set, Set, Any, AtGround)
  ]

  /** `getArrivingStatus`'s tests, in source order. */
  function ArrivingKind(p: Pattern, far: bool): Kind
  {
    if p.end then Anchored
    else if far then Window
    else if p.arrival && !p.start && !p.onboard then Arrived
    else if p.arrival && p.onboard && !p.start then Onboarded
    else if p.arrival && p.onboard && p.start then Inbound
    else Unknown
  }

  /** `getLeavingStatus`'s tests, in source order. */
  function LeavingKind(p: Pattern): Kind
  {
    if p.end then Departed
    else if !p.onboard && !p.arrival && !p.start then Waiting
    else if p.onboard && !p.arrival && !p.start then Boarding
    else if p.onboard && p.start && !p.arrival then Outbound
    else if p.onboard && p.start && p.arrival then AtGround
    else Unknown
  }

  /** After the end test and the window test, the arriving if-chain is its table. */
  lemma {:induction false} ArrivingFollowsTable(p: Pattern, far: bool)
    ensures ArrivingKind(p, far) ==
            if p.end then Anchored else if far then Window else FirstMatch(ArrivingRules, p, Unknown)
  {
    var r := ArrivingRules;
    var at2 := FirstMatchFrom(r, p, Unknown, 2);
    var at1 := FirstMatchFrom(r, p, Unknown, 1);
    assert at1 == if Matches(r[1], p) then r[1].outcome else at2;
  }

  /** The leaving if-chain is its table. */
  lemma {:induction false} LeavingFollowsTable(p: Pattern)
    ensures LeavingKind(p) == FirstMatch(LeavingRules, p, Unknown)
  {
    var r := LeavingRules;
    var at4 := FirstMatchFrom(r, p, Unknown, 4);
    var at3 := FirstMatchFrom(r, p, Unknown, 3);
    var at2 := FirstMatchFrom(r, p, Unknown, 2);
    var at1 := FirstMatchFrom(r, p, Unknown, 1);
    assert at3 == if Matches(r[3], p) then r[3].outcome else at4;
    assert at2 == if Matches(r[2], p) then r[2].outcome else at3;
    assert at1 == if Matches(r[1], p) then r[1].outcome else at2;
  }

  /** `getArrivingStatus(item, currentTime)`: arrived at anchor once the end
      time is set; otherwise a one-hour window starting an hour after the
      request when that is more than a day ahead; otherwise by the
      timestamps. It is unknown exactly when no end time is set, the request
      is not far ahead, and there is no arrival time or the start time is
      set without the onboard time. */
  function ArrivingStatus(host: Host, item: Snapshot, now: int): (s: LegacyStatus)
    ensures KindOf(s) ==
            if Present(item.endTime) then Anchored
            else if FarAhead(host, item, now) then Window
            else FirstMatch(ArrivingRules, PatternOf(item), Unknown)
    ensures s.ArrivedAtAnchor? ==> s == ArrivedAtAnchor(item.locTo, item.endTime)
    ensures s.EstimatedWindow? ==>
      s.opens == host.parse(item.requestTime) + HourMs && s.closes == s.opens + HourMs
    ensures s.ArrivedAt? ==> s == ArrivedAt(item.name, item.locTo, item.arrivalTime)
    ensures s.PilotOnboarded? ==> s == PilotOnboarded(item.name, item.onboardTime)
    ensures s.DrivingIn? ==> s == DrivingIn(item.name, item.locTo)
    ensures s == StatusUnknown <==>
      !Present(item.endTime) && !FarAhead(host, item, now) &&
      (!Present(item.arrivalTime) || (!Present(item.onboardTime) && Present(item.startTime)))
  {
    var kind := ArrivingKind(PatternOf(item), FarAhead(host, item, now));
    ArrivingFollowsTable(PatternOf(item), FarAhead(host, item, now));
    if kind == Anchored then
      ArrivedAtAnchor(item.locTo, item.endTime)
    else if kind == Window then
      var requestTime := host.parse(item.requestTime);
      EstimatedWindow(requestTime + 60 * 60 * 1000, requestTime + 2 * 60 * 60 * 1000)
    else if kind == Arrived then
      ArrivedAt(item.name, item.locTo, item.arrivalTime)
    else if kind == Onboarded then
      PilotOnboarded(item.name, item.onboardTime)
    else if kind == Inbound then
      DrivingIn(item.name, item.locTo)
    else
      StatusUnknown
  }

  /** The window is only offered for a request more than a day ahead, so it
      opens more than 25 hours after `now` and lasts one hour. */
  lemma WindowOpensAfterADay(host: Host, item: Snapshot, now: int)
    requires ArrivingStatus(host, item, now).EstimatedWindow?
    ensures ArrivingStatus(host, item, now).opens > now + 25 * HourMs
    ensures ArrivingStatus(host, item, now).closes - ArrivingStatus(host, item, now).opens == HourMs
  {
  }

  /** `getLeavingStatus(item)`: left Singapore once the end time is set;
      otherwise by the timestamps, from waiting at anchor until the request
      time to arrival at the boarding ground. It is unknown exactly when no
      end time is set, the arrival or start time is, and not both the onboard
      and start times are. */
  function LeavingStatus(item: Snapshot): (s: LegacyStatus)
    ensures KindOf(s) == FirstMatch(LeavingRules, PatternOf(item), Unknown)
    ensures s.LeftSingapore? ==> s == LeftSingapore(item.name)
    ensures s.AtAnchor? ==> s == AtAnchor(item.name, item.locFrom, Some(item.requestTime))
    ensures s.AboutToDriveOff? ==> s == AboutToDriveOff(item.name, item.onboardTime)
    ensures s.DrivingOut? ==> s == DrivingOut(item.name, item.locTo)
    ensures s.ArrivedAtBoardingGround? ==> s == ArrivedAtBoardingGround(item.name, item.locTo, item.arrivalTime)
    ensures s == StatusUnknown <==>
      !Present(item.endTime) && (Present(item.arrivalTime) || Present(item.startTime)) &&
      !(Present(item.onboardTime) && Present(item.startTime))
  {
    var kind := LeavingKind(PatternOf(item));
    LeavingFollowsTable(PatternOf(item));
    if kind == Departed then
      LeftSingapore(item.name)
    else if kind == Waiting then
      AtAnchor(item.name, item.locFrom, Some(item.requestTime))
    else if kind == Boarding then
      AboutToDriveOff(item.name, item.onboardTime)
    else if kind == Outbound then
      DrivingOut(item.name, item.locTo)
    else if kind == AtGround then
      ArrivedAtBoardingGround(item.name, item.locTo, item.arrivalTime)
    else
      StatusUnknown
  }

  /** `getVesselStatus` of the earlier table before rendering: arriving
      (pilot boarding ground to anchorage) and leaving (anchorage to pilot
      boarding ground) only; anything else, moves between anchorages
      included, is unknown. */
  function StatusOf(host: Host, item: Snapshot, now: int): (s: LegacyStatus)
    ensures VesselStatus.DirectionOf(item.locFrom, item.locTo) == VesselStatus.Arriving ==>
      s == ArrivingStatus(host, item, now)
    ensures VesselStatus.DirectionOf(item.locFrom, item.locTo) == VesselStatus.Leaving ==>
      s == LeavingStatus(item)
    ensures VesselStatus.DirectionOf(item.locFrom, item.locTo) in {VesselStatus.BetweenAnchors, VesselStatus.Undetermined} ==>
      s == StatusUnknown
  {
    match VesselStatus.DirectionOf(item.locFrom, item.locTo)
    case Arriving => ArrivingStatus(host, item, now)
    case Leaving => LeavingStatus(item)
    case _ => StatusUnknown
  }

  /** `getVesselStatus(item)`, with the wall clock reading `now` passed in:
      the rendered status, which is the unknown text exactly when no case
      of the row's direction applies. */
  function GetVesselStatus(host: Host, item: Snapshot, now: int): (m: string)
    ensures m == Text(host, StatusOf(host, item, now))
    ensures m == UnknownText <==> StatusOf(host, item, now) == StatusUnknown
  {
    Text(host, StatusOf(host, item, now))
  }

  /** Where both tables narrate a finished arrival they name the same
      anchorage and the same end time. */
  lemma BothTablesReportArrivalAtAnchorage(host: Host, item: Snapshot, now: int)
    requires VesselStatus.DirectionOf(item.locFrom, item.locTo) == VesselStatus.Arriving
    requires Present(item.arrivalTime) && Present(item.onboardTime) && Present(item.startTime) && Present(item.endTime)
    ensures StatusOf(host, item, now) == ArrivedAtAnchor(item.locTo, item.endTime)
    ensures VesselStatus.StatusOf(item) == StatusMessages.ArrivedAtAnchorage(item.locTo, item.endTime)
  {
    FirstMatchIsFirst(VesselStatus.ArrivingRules, PatternOf(item), VesselStatus.Unknown);
  }

  /** For a leaving vessel, both tables say it waits at its anchorage until
      the request time in exactly the same rows: those with none of the four
      timestamps. */
  lemma BothTablesAgreeOnWaitingAtAnchor(host: Host, item: Snapshot, now: int)
    requires VesselStatus.DirectionOf(item.locFrom, item.locTo) == VesselStatus.Leaving
    ensures StatusOf(host, item, now).AtAnchor? <==>
            VesselStatus.StatusOf(item) == StatusMessages.AtAnchorage(item.locFrom, Some(item.requestTime))
    ensures StatusOf(host, item, now).AtAnchor? <==>
            !Present(item.arrivalTime) && !Present(item.onboardTime) &&
            !Present(item.startTime) && !Present(item.endTime)
  {
    FirstMatchIsFirst(LeavingRules, PatternOf(item), Unknown);
    FirstMatchIsFirst(VesselStatus.LeavingRules, PatternOf(item), VesselStatus.Unknown);
  }
}
