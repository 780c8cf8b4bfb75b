/** The status engine of the current table: the journey direction from the
    two location codes, then an ordered phase table per direction over which
    of the four optional timestamps are present, with fixed ETA offsets. */
module VesselStatus {
  import opened PilotageData
  import opened TimeFormat
  import opened RuleTable
  import opened StatusMessages

  /** Anchorage codes start with 'A', pilot boarding ground codes with 'P'. */
  datatype Direction = Arriving | Leaving | BetweenAnchors | Undetermined

  predicate StartsWith(s: string, c: char)
  {
    |s| > 0 && s[0] == c
  }

  /** The first character of a code, if it has one. */
  function Head(s: string): Option<char>
  {
    if s == [] then None else Some(s[0])
  }

  /** `getVesselStatus`'s three tests, tried as the source tries them
      (moving between anchors, then arriving, then leaving). Each direction
      holds exactly when its own pair of leading letters does, so the tests
      exclude one another and their order is immaterial. */
  function DirectionOf(locFrom: string, locTo: string): (d: Direction)
    ensures d == BetweenAnchors <==> StartsWith(locFrom, 'A') && StartsWith(locTo, 'A')
    ensures d == Arriving <==> StartsWith(locFrom, 'P') && StartsWith(locTo, 'A')
    ensures d == Leaving <==> StartsWith(locFrom, 'A') && StartsWith(locTo, 'P')
  {
    var isArriving := StartsWith(locTo, 'A') && StartsWith(locFrom, 'P');
    var isLeaving := StartsWith(locTo, 'P') && StartsWith(locFrom, 'A');
    var isMovingBetweenAnchors := StartsWith(locTo, 'A') && StartsWith(locFrom, 'A');
    if isMovingBetweenAnchors then BetweenAnchors
    else if isArriving then Arriving
    else if isLeaving then Leaving
    else Undetermined
  }

  /** Only the leading character of each code matters; an empty code has none
      and never yields a known direction. */
  lemma DirectionByLeadingLetters(f1: string, t1: string, f2: string, t2: string)
    requires Head(f1) == Head(f2) && Head(t1) == Head(t2)
    ensures DirectionOf(f1, t1) == DirectionOf(f2, t2)
    ensures f1 == [] || t1 == [] ==> DirectionOf(f1, t1) == Undetermined
  {
  }

  /** The phase a status narrates: which template entry, and for a vessel
      moving between anchorages, which stage. */
  datatype Phase =
    | Completed | AtBoardingGround | Boarded | Started | LeftAnchor | AtAnchor
    | Moving(stage: Stage) | Unknown

  function PhaseOf(s: Status): Phase
  {
    match s
    case ArrivedAtAnchorage(_, _) => Completed
    case AtPilotBoardingGround(_, _, _, _) => AtBoardingGround
    case PilotBoarded(_, _, _) => Boarded
    case PilotageStarted(_, _, _) => Started
    case LeftAnchorage(_, _) => LeftAnchor
    case AtAnchorage(_, _) => AtAnchor
    case MovingBetweenAnchors(_, _, _, _, stage) => Moving(stage)
    case UnknownStatus => Unknown
  }

  /** The phase tables, one row per `if` of the source, in source order.
      Columns: arrival, onboard, start, end. */
  const ArrivingRules: seq<Rule<Phase>> := [
    Rule(Set, Set, Set, Set, Completed),
    Rule(Set, Unset, Unset, Unset, AtBoardingGround),
    Rule(Set, Set, Unset, Unset, Boarded),
    Rule(Set, Set, Set, Unset, Started)
  ]

  const LeavingRules: seq<Rule<Phase>> := [
    Rule(Set, Any, Any, Any, LeftAnchor),
    Rule(Unset, Unset, Unset, Unset, AtAnchor)
  ]

  const MovingRules: seq<Rule<Phase>> := [
    Rule(Set, Unset, Unset, Unset, Moving(StageArrived)),
    Rule(Set, Set, Unset, Unset, Moving(StageBoarded)),
    Rule(Set, Set, Set, Unset, Moving(StageStarted)),
    Rule(Set, Set, Set, Set, Completed)
  ]

  function RulesFor(d: Direction): seq<Rule<Phase>>
  {
    match d
    case Arriving => ArrivingRules
    case Leaving => LeavingRules
    case BetweenAnchors => MovingRules
    case Undetermined => []
  }

  /** The phase a direction and a presence pattern select. */
  function PhaseFor(d: Direction, p: Pattern): Phase
  {
    FirstMatch(RulesFor(d), p, Unknown)
  }

  /** Within each table no two rows can match at once, so first-match-wins
      reads the same in any row order. */
  lemma {:induction false} TablesAreExclusive()
    ensures Exclusive(ArrivingRules) && Exclusive(LeavingRules) && Exclusive(MovingRules)
  {
    forall p: Pattern, i, j | 0 <= i < j < |ArrivingRules| && Matches(ArrivingRules[i], p)
      ensures !Matches(ArrivingRules[j], p)
    {
    }
    forall p: Pattern, i, j | 0 <= i < j < |LeavingRules| && Matches(LeavingRules[i], p)
      ensures !Matches(LeavingRules[j], p)
    {
    }
    forall p: Pattern, i, j | 0 <= i < j < |MovingRules| && Matches(MovingRules[i], p)
      ensures !Matches(MovingRules[j], p)
    {
    }
  }

  /** Since no two rows of a table match together, any row a pattern
      matches decides the phase, wherever it stands in the table. */
  lemma MatchingRowDecidesPhase(d: Direction, p: Pattern, i: nat)
    requires i < |RulesFor(d)| && Matches(RulesFor(d)[i], p)
    ensures PhaseFor(d, p) == RulesFor(d)[i].outcome
  {
    TablesAreExclusive();
    ExclusiveOrderIrrelevant(RulesFor(d), p, Unknown, i);
  }

  /** `getArrivingStatus`'s tests on which timestamps are present, in source order. */
  function ArrivingPhase(p: Pattern): Phase
  {
    if p.onboard && p.arrival && p.start && p.end then Completed
    else if !p.onboard && !p.start && !p.end && p.arrival then AtBoardingGround
    else if p.onboard && p.arrival && !p.start && !p.end then Boarded
    else if p.onboard && p.arrival && p.start && !p.end then Started
    else Unknown
  }

  /** `getLeavingStatus`'s tests on which timestamps are present, in source order. */
  function LeavingPhase(p: Pattern): Phase
  {
    if p.arrival then LeftAnchor
    else if !p.onboard && !p.arrival && !p.start && !p.end then AtAnchor
    else Unknown
  }

  /** `getMovingBetweenAnchorsStatus`'s tests on which timestamps are present, in source order. */
  function MovingPhase(p: Pattern): Phase
  {
    if p.arrival && !p.onboard && !p.start && !p.end then Moving(StageArrived)
    else if p.arrival && p.onboard && !p.start && !p.end then Moving(StageBoarded)
    else if p.arrival && p.onboard && p.start && !p.end then Moving(StageStarted)
    else if p.end && p.start && p.onboard && p.arrival then Completed
    else Unknown
  }

  /** The arriving if-chain is the arriving table. */
  lemma {:induction false} ArrivingFollowsTable(p: Pattern)
    ensures ArrivingPhase(p) == FirstMatch(ArrivingRules, p, Unknown)
  {
    var r := ArrivingRules;
    var at3 := FirstMatchFrom(r, p, Unknown, 3);
    var at2 := FirstMatchFrom(r, p, Unknown, 2);
    var at1 := FirstMatchFrom(r, p, Unknown, 1);
    assert at2 == if Matches(r[2], p) then r[2].outcome else at3;
    assert at1 == if Matches(r[1], p) then r[1].outcome else at2;
  }

  /** The leaving if-chain is the leaving table. */
  lemma {:induction false} LeavingFollowsTable(p: Pattern)
    ensures LeavingPhase(p) == FirstMatch(LeavingRules, p, Unknown)
  {
    var r := LeavingRules;
    var at1 := FirstMatchFrom(r, p, Unknown, 1);
    assert at1 == if Matches(r[1], p) then r[1].outcome else Unknown;
  }

  /** The moving-between-anchorages if-chain is its table. */
  lemma {:induction false} MovingFollowsTable(p: Pattern)
    ensures MovingPhase(p) == FirstMatch(MovingRules, p, Unknown)
  {
    var r := MovingRules;
    var at3 := FirstMatchFrom(r, p, Unknown, 3);
    var at2 := FirstMatchFrom(r, p, Unknown, 2);
    var at1 := FirstMatchFrom(r, p, Unknown, 1);
    assert at2 == if Matches(r[2], p) then r[2].outcome else at3;
    assert at1 == if Matches(r[1], p) then r[1].outcome else at2;
  }

  /** `getArrivingStatus`: the entry its phase selects. The estimate is a
      fixed offset after its anchor: request + 2 h, onboard + 2 h, start + 90 min. */
  function ArrivingStatus(item: Snapshot): (s: Status)
    ensures PhaseOf(s) == FirstMatch(ArrivingRules, PatternOf(item), Unknown)
    ensures s.ArrivedAtAnchorage? ==> s == ArrivedAtAnchorage(item.locTo, item.endTime)
    ensures s.AtPilotBoardingGround? ==>
      s == AtPilotBoardingGround(item.locFrom, item.locTo, item.arrivalTime, Eta(item.requestTime, 120))
    ensures s.PilotBoarded? ==>
      Present(item.onboardTime) &&
      s == PilotBoarded(item.locTo, item.onboardTime, Eta(item.onboardTime.value, 120))
    ensures s.PilotageStarted? ==>
      Present(item.startTime) &&
      s == PilotageStarted(item.locTo, item.startTime, Eta(item.startTime.value, 90))
  {
    var phase := ArrivingPhase(PatternOf(item));
    ArrivingFollowsTable(PatternOf(item));
    if phase == Completed then
      ArrivedAtAnchorage(item.locTo, item.endTime)
    else if phase == AtBoardingGround then
      AtPilotBoardingGround(item.locFrom, item.locTo, item.arrivalTime, Eta(item.requestTime, 2 * 60))
    else if phase == Boarded then
      PilotBoarded(item.locTo, item.onboardTime, Eta(item.onboardTime.value, 2 * 60))
    else if phase == Started then
      PilotageStarted(item.locTo, item.startTime, Eta(item.startTime.value, 90))
    else
      UnknownStatus
  }

  /** `getLeavingStatus`: left the anchorage (narrated with the arrival time)
      or waiting at it until the requested time, from the pickup location. */
  function LeavingStatus(item: Snapshot): (s: Status)
    ensures PhaseOf(s) == FirstMatch(LeavingRules, PatternOf(item), Unknown)
    ensures s.LeftAnchorage? ==> s == LeftAnchorage(item.locFrom, item.arrivalTime)
    ensures s.AtAnchorage? ==> s == AtAnchorage(item.locFrom, Some(item.requestTime))
  {
    var phase := LeavingPhase(PatternOf(item));
    LeavingFollowsTable(PatternOf(item));
    if phase == LeftAnchor then
      LeftAnchorage(item.locFrom, item.arrivalTime)
    else if phase == AtAnchor then
      AtAnchorage(item.locFrom, Some(item.requestTime))
    else
      UnknownStatus
  }

  /** `getMovingBetweenAnchorsStatus`: the moving entry with its stage label
      and an estimate of arrival + 90 min, onboard + 60 min or start + 30 min;
      with all four timestamps it reuses the arrived-at-anchorage entry. */
  function MovingBetweenAnchorsStatus(item: Snapshot): (s: Status)
    ensures PhaseOf(s) == FirstMatch(MovingRules, PatternOf(item), Unknown)
    ensures s.ArrivedAtAnchorage? ==> s == ArrivedAtAnchorage(item.locTo, item.endTime)
    ensures s.MovingBetweenAnchors? && s.stage == StageArrived ==>
      Present(item.arrivalTime) &&
      s == MovingBetweenAnchors(item.locFrom, item.locTo, item.arrivalTime, Eta(item.arrivalTime.value, 90), StageArrived)
    ensures s.MovingBetweenAnchors? && s.stage == StageBoarded ==>
      Present(item.onboardTime) &&
      s == MovingBetweenAnchors(item.locFrom, item.locTo, item.onboardTime, Eta(item.onboardTime.value, 60), StageBoarded)
    ensures s.MovingBetweenAnchors? && s.stage == StageStarted ==>
      Present(item.startTime) &&
      s == MovingBetweenAnchors(item.locFrom, item.locTo, item.startTime, Eta(item.startTime.value, 30), StageStarted)
  {
    var phase := MovingPhase(PatternOf(item));
    MovingFollowsTable(PatternOf(item));
    if phase == Moving(StageArrived) then
      MovingBetweenAnchors(item.locFrom, item.locTo, item.arrivalTime, Eta(item.arrivalTime.value, 90), StageArrived)
    else if phase == Moving(StageBoarded) then
      MovingBetweenAnchors(item.locFrom, item.locTo, item.onboardTime, Eta(item.onboardTime.value, 60), StageBoarded)
    else if phase == Moving(StageStarted) then
      MovingBetweenAnchors(item.locFrom, item.locTo, item.startTime, Eta(item.startTime.value, 30), StageStarted)
    else if phase == Completed then
      ArrivedAtAnchorage(item.locTo, item.endTime)
    else
      UnknownStatus
  }

  /** `getVesselStatus` before rendering: the direction's status function
      applied to the row, or the unknown entry when no direction holds. */
  function StatusOf(item: Snapshot): (s: Status)
    ensures PhaseOf(s) == PhaseFor(DirectionOf(item.locFrom, item.locTo), PatternOf(item))
    ensures DirectionOf(item.locFrom, item.locTo) == BetweenAnchors ==> s == MovingBetweenAnchorsStatus(item)
    ensures DirectionOf(item.locFrom, item.locTo) == Arriving ==> s == ArrivingStatus(item)
    ensures DirectionOf(item.locFrom, item.locTo) == Leaving ==> s == LeavingStatus(item)
    ensures DirectionOf(item.locFrom, item.locTo) == Undetermined ==> s == UnknownStatus
  {
    match DirectionOf(item.locFrom, item.locTo)
    case BetweenAnchors => MovingBetweenAnchorsStatus(item)
    case Arriving => ArrivingStatus(item)
    case Leaving => LeavingStatus(item)
    case Undetermined => UnknownStatus
  }

  /** `getVesselStatus`: the bilingual text of a row. It is the literal
      unknown pair exactly when the direction and presence pattern fall
      outside every table row. */
  function GetVesselStatus(host: Host, item: Snapshot): (m: Bilingual)
    ensures m == Message(host, StatusOf(item))
    ensures m == UnknownMessage <==> PhaseFor(DirectionOf(item.locFrom, item.locTo), PatternOf(item)) == Unknown
  {
    UnknownMessageOnlyFromUnknown(host, StatusOf(item));
    Message(host, StatusOf(item))
  }

  /** The phase is a pure function of direction and presence pattern: rows
      that agree on both get the same phase whatever their times and names. */
  lemma PhaseDependsOnlyOnDirectionAndPattern(a: Snapshot, b: Snapshot)
    requires DirectionOf(a.locFrom, a.locTo) == DirectionOf(b.locFrom, b.locTo)
    requires PatternOf(a) == PatternOf(b)
    ensures PhaseOf(StatusOf(a)) == PhaseOf(StatusOf(b))
  {
  }
}
