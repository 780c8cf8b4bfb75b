/** The bilingual template table of the current table (`statusMessages`):
    each entry takes the same ordered arguments in English and in Chinese. */
module StatusMessages {
  import opened PilotageData
  import opened TimeFormat

  /** The stage label of a vessel moving between anchorages. */
  datatype Stage = StageArrived | StageBoarded | StageStarted
  {
    function English(): string
    {
      match this
      case StageArrived => "Arrived"
      case StageBoarded => "Pilot boarded"
      case StageStarted => "Pilotage started"
    }

    function Chinese(): string
    {
      match this
      case StageArrived => "已到达"
      case StageBoarded => "引航员登船"
      case StageStarted => "引航开始"
    }
  }

  /** An entry of the template table together with its arguments. Times are
      the raw feed timestamps and estimates are anchor-plus-offset pairs; both
      are formatted only when the message is rendered. */
  datatype Status =
    | ArrivedAtAnchorage(loc: string, time: Option<string>)
    | AtPilotBoardingGround(locFrom: string, locTo: string, arrivalTime: Option<string>, eta: Eta)
    | PilotBoarded(loc: string, onboardTime: Option<string>, eta: Eta)
    | PilotageStarted(loc: string, startTime: Option<string>, eta: Eta)
    | LeftAnchorage(loc: string, arrivalTime: Option<string>)
    | AtAnchorage(loc: string, departureTime: Option<string>)
    | MovingBetweenAnchors(locFrom: string, locTo: string, time: Option<string>, eta: Eta, stage: Stage)
    | UnknownStatus

  datatype Bilingual = Bilingual(english: string, chinese: string)

  const UnknownMessage: Bilingual := Bilingual("Unknown status.", "未知状态。")

  /** The English templates. Each opens with its literal lead, so no entry
      but the unknown one renders as "Unknown status.". */
  function English(host: Host, s: Status): (r: string)
    ensures r == UnknownMessage.english <==> s == UnknownStatus
  {
    assert UnknownMessage.english[0] == 'U';
    match s
    case ArrivedAtAnchorage(loc, time) =>
      "Vessel has arrived at anchor (" + (loc + ") at " + FormatDateTime(host, time) +
      ". Will reach the berth in about 30 minutes.")
    case AtPilotBoardingGround(locFrom, locTo, arrivalTime, eta) =>
      "Vessel is at Pilot Boarding Ground (" + (locFrom + ") since " + FormatDateTime(host, arrivalTime) +
      ". Estimated arrival at anchor (" + locTo + ") by " + Estimated(host, eta) + ".")
    case PilotBoarded(loc, onboardTime, eta) =>
      "Pilot has boarded the vessel at " + (FormatDateTime(host, onboardTime) + ". Estimated arrival at anchor (" + loc +
      ") by " + Estimated(host, eta) + ".")
    case PilotageStarted(loc, startTime, eta) =>
      "Pilotage service started at " + (FormatDateTime(host, startTime) + ". Estimated arrival at anchor (" + loc +
      ") by " + Estimated(host, eta) + ".")
    case LeftAnchorage(loc, arrivalTime) =>
      "Vessel has left the anchor (" + (loc + ") at " + FormatDateTime(host, arrivalTime) +
      ". No more loading/unloading is possible.")
    case AtAnchorage(loc, departureTime) =>
      "Vessel is at anchor (" + (loc + "). Estimated departure at " + FormatDateTime(host, departureTime) + ".")
    case MovingBetweenAnchors(locFrom, locTo, time, eta, stage) =>
      "Vessel is moving between anchors from (" + (locFrom + ") to (" + locTo + "). " + stage.English() +
      " at " + FormatDateTime(host, time) + ". Estimated arrival at " + Estimated(host, eta) + ".")
    case UnknownStatus => UnknownMessage.english
  }

  /** The Chinese templates, with the same arguments in the same entries;
      none but the unknown one renders as "未知状态。". */
  function Chinese(host: Host, s: Status): (r: string)
    ensures r == UnknownMessage.chinese <==> s == UnknownStatus
  {
    assert UnknownMessage.chinese[0] == '未';
    match s
    case ArrivedAtAnchorage(loc, time) =>
      "船舶已在 " + (FormatDateTime(host, time) + " 到达锚地 (" + loc + ") 。将在约30分钟后到达泊位。")
    case AtPilotBoardingGround(locFrom, locTo, arrivalTime, eta) =>
      "船舶在引航员登船地点 (" + (locFrom + ") 自 " + FormatDateTime(host, arrivalTime) + "。预计到达锚地 (" + locTo + ") 在 " +
      Estimated(host, eta) + "。")
    case PilotBoarded(loc, onboardTime, eta) =>
      "引航员已登船在 " + (FormatDateTime(host, onboardTime) + "。预计在 " + Estimated(host, eta) + "到达锚地 (" + loc + ")。")
    case PilotageStarted(loc, startTime, eta) =>
      "引航服务已在 " + (FormatDateTime(host, startTime) + "时开始。预计在 " + Estimated(host, eta) + "到达锚地 (" + loc + ")。")
    case LeftAnchorage(loc, arrivalTime) =>
      "船舶已在 " + (FormatDateTime(host, arrivalTime) + "时离开锚地 (" + loc + ")。无法再进行装卸。")
    case AtAnchorage(loc, departureTime) =>
      "船舶在锚地 (" + (loc + ")。预计在 " + FormatDateTime(host, departureTime) + "离港。")
    case MovingBetweenAnchors(locFrom, locTo, time, eta, stage) =>
      "船舶正在从锚地 (" + (locFrom + ") 移动到锚地 (" + locTo + ")。" + stage.Chinese() + "在 " + FormatDateTime(host, time) +
      "。预计在 " + Estimated(host, eta) + " 到达。")
    case UnknownStatus => UnknownMessage.chinese
  }

  /** Both halves of a message come from the same entry with the same arguments. */
  function Message(host: Host, s: Status): (m: Bilingual)
    ensures m.english == English(host, s) && m.chinese == Chinese(host, s)
  {
    Bilingual(English(host, s), Chinese(host, s))
  }

  /** The literal pair ("Unknown status.", "未知状态。") is produced by the
      unknown entry and by no other entry, whatever its arguments. */
  lemma {:induction false} UnknownMessageOnlyFromUnknown(host: Host, s: Status)
    ensures Message(host, s) == UnknownMessage <==> s == UnknownStatus
  {
  }
}
