/** Ordered rule tables over the presence pattern of the four optional
    lifecycle timestamps: the rows are tried top-down, the first row whose
    conditions hold decides, and a fallback answers when none does. */
module RuleTable {
  import opened PilotageData

  /** What a rule asks of one timestamp. */
  datatype Need = Set | Unset | Any

  /** A row of a table: conditions on arrival, onboard, start and end, and its outcome. */
  datatype Rule<P> = Rule(arrival: Need, onboard: Need, start: Need, end: Need, outcome: P)

  predicate Meets(n: Need, present: bool)
  {
    match n
    case Set => present
    case Unset => !present
    case Any => true
  }

  predicate Matches<P>(r: Rule<P>, p: Pattern)
  {
    Meets(r.arrival, p.arrival) && Meets(r.onboard, p.onboard) &&
    Meets(r.start, p.start) && Meets(r.end, p.end)
  }

  /** First match wins; `fallback` when no row matches. */
  function FirstMatch<P>(rules: seq<Rule<P>>, p: Pattern, fallback: P): P
  {
    FirstMatchFrom(rules, p, fallback, 0)
  }

  /** The lookup from row `from` on. */
  function FirstMatchFrom<P>(rules: seq<Rule<P>>, p: Pattern, fallback: P, from: nat): P
    decreases |rules| - from
  {
    if from >= |rules| then fallback
    else if Matches(rules[from], p) then rules[from].outcome
    else FirstMatchFrom(rules, p, fallback, from + 1)
  }

  /** From row `from` on, the lookup answers the fallback when no row matches
      and otherwise the outcome of the first row that does. */
  lemma {:induction false} FirstMatchFromIsFirst<P>(rules: seq<Rule<P>>, p: Pattern, fallback: P, from: nat)
    ensures (forall i :: from <= i < |rules| ==> !Matches(rules[i], p)) ==>
              FirstMatchFrom(rules, p, fallback, from) == fallback
    ensures forall i :: (from <= i < |rules| && Matches(rules[i], p) &&
                         forall j :: from <= j < i ==> !Matches(rules[j], p)) ==>
              FirstMatchFrom(rules, p, fallback, from) == rules[i].outcome
    decreases |rules| - from
  {
    if from < |rules| && !Matches(rules[from], p) {
      FirstMatchFromIsFirst(rules, p, fallback, from + 1);
    }
  }

  /** The whole-table lookup: the fallback when no row matches, otherwise the
      outcome of the first matching row. */
  lemma FirstMatchIsFirst<P>(rules: seq<Rule<P>>, p: Pattern, fallback: P)
    ensures (forall i :: 0 <= i < |rules| ==> !Matches(rules[i], p)) ==>
              FirstMatch(rules, p, fallback) == fallback
    ensures forall i :: (0 <= i < |rules| && Matches(rules[i], p) &&
                         forall j :: 0 <= j < i ==> !Matches(rules[j], p)) ==>
              FirstMatch(rules, p, fallback) == rules[i].outcome
  {
    FirstMatchFromIsFirst(rules, p, fallback, 0);
  }

  /** No pattern satisfies two rows of the table. */
  ghost predicate Exclusive<P>(rules: seq<Rule<P>>)
  {
    forall p: Pattern, i, j :: 0 <= i < j < |rules| && Matches(rules[i], p) ==> !Matches(rules[j], p)
  }

  /** In a table whose rows exclude one another the order of the rows does not
      matter: whichever row matches decides, wherever it stands. */
  lemma ExclusiveOrderIrrelevant<P>(rules: seq<Rule<P>>, p: Pattern, fallback: P, i: nat)
    requires Exclusive(rules)
    requires i < |rules| && Matches(rules[i], p)
    ensures FirstMatch(rules, p, fallback) == rules[i].outcome
  {
    FirstMatchIsFirst(rules, p, fallback);
  }
}
