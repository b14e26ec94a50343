/** The risk scorer and prioritiser (agent 8): turns the findings of the other
    agents into a delay probability, a prioritised list with a verdict, and an
    action plan with a shipment status. */
module RiskScorer {
  import opened Wrappers
  import opened Seqs
  import opened Sorting
  import opened Levels

  /** A finding (an "issue") as the agents report it: the fields the scorer
      reads, and the two it writes onto each finding when prioritising. */
  datatype Finding = Finding(
    riskLevel: Option<string>,
    message: Option<string>,
    agent: Option<string>,
    recommendedAction: Option<string>,
    recommendation: Option<string>,
    priorityScore: Option<int>,
    actionTimeline: Option<string>)

  /** The level as `finding.get("risk_level", "LOW")` reads it: a missing
      field counts as LOW; `None` is an unrecognised string. */
  function ReadLevel(f: Finding): Option<Level> {
    Parse(f.riskLevel.GetOr("LOW"))
  }

  /** The level as `finding.get("risk_level") == ...` tests it: a missing
      field matches no level at all. */
  function DeclaredLevel(f: Finding): Option<Level> {
    match f.riskLevel
    case None => None
    case Some(s) => Parse(s)
  }

  /** Where a finding states a recognised level, both readings agree; a
      finding without a level reads as LOW but is declared as nothing. */
  lemma ReadingsAgree(f: Finding)
    ensures DeclaredLevel(f).Some? ==> ReadLevel(f) == DeclaredLevel(f)
    ensures f.riskLevel.None? ==> ReadLevel(f) == Some(Low) && DeclaredLevel(f).None?
  {
  }

  // ---------------------------------------------------------------------
  // calculate_delay_probability

  /** The delay weight of one issue: CRITICAL 40, HIGH 25, MEDIUM 10, LOW 5,
      and 5 for an unrecognised level. */
  function Weight(f: Finding): (w: nat)
    ensures 5 <= w <= 40
  {
    match ReadLevel(f)
    case Some(Critical) => 40
    case Some(High) => 25
    case Some(Medium) => 10
    case Some(Low) => 5
    case None => 5
  }

  /** The sum of the weights of the issues. */
  function TotalWeight(issues: seq<Finding>): nat {
    if issues == [] then 0
    else TotalWeight(issues[..|issues| - 1]) + Weight(issues[|issues| - 1])
  }

  const DELAY_CAP: nat := 95
  const NO_ISSUE_DELAY: nat := 5

  /** The delay probability in percent: the capped total weight, and 5 when
      there are no issues. */
  function DelayProbability(issues: seq<Finding>): nat {
    if issues == [] then NO_ISSUE_DELAY
    else if TotalWeight(issues) < DELAY_CAP then TotalWeight(issues)
    else DELAY_CAP
  }

  /** The delay band: 70 and above CRITICAL, 40 HIGH, 20 MEDIUM, else LOW. */
  function DelayBand(p: int): (l: Level)
    ensures Rank(l) == 1 + (if p >= 20 then 1 else 0) + (if p >= 40 then 1 else 0) + (if p >= 70 then 1 else 0)
  {
    if p >= 70 then Critical
    else if p >= 40 then High
    else if p >= 20 then Medium
    else Low
  }

  /** The result of `calculate_delay_probability`; the empty input reports
      no "issues_analyzed". */
  datatype DelayEstimate = DelayEstimate(percent: nat, level: Level, issuesAnalyzed: Option<nat>)

  method CalculateDelayProbability(issues: seq<Finding>) returns (r: DelayEstimate)
    ensures r.percent == DelayProbability(issues)
    ensures r.level == DelayBand(r.percent)
    ensures r.issuesAnalyzed == (if issues == [] then None else Some(|issues|))
  {
    if |issues| == 0 {
      return DelayEstimate(NO_ISSUE_DELAY, Low, None);
    }
    var total := 0;
    for i := 0 to |issues|
      invariant total == TotalWeight(issues[..i])
    {
      assert issues[..i + 1][..i] == issues[..i];
      total := total + Weight(issues[i]);
    }
    assert issues[..|issues|] == issues;
    var probability := if total < DELAY_CAP then total else DELAY_CAP;
    var level := if probability >= 70 then Critical
                 else if probability >= 40 then High
                 else if probability >= 20 then Medium
                 else Low;
    r := DelayEstimate(probability, level, Some(|issues|));
  }

  /** The findings that read as level `l` (`None`: unrecognised). */
  function ReadsAs(l: Option<Level>): Finding -> bool {
    f => ReadLevel(f) == l
  }

  /** The number of issues that read as level `l`. */
  function CountReading(issues: seq<Finding>, l: Option<Level>): nat {
    |Filter(issues, ReadsAs(l))|
  }

  /** The total weight counted level by level: 40 per CRITICAL issue, 25 per
      HIGH, 10 per MEDIUM and 5 for every other issue. */
  lemma {:induction false} TotalWeightByLevels(issues: seq<Finding>)
    ensures var c, h, m := CountReading(issues, Some(Critical)), CountReading(issues, Some(High)), CountReading(issues, Some(Medium));
            c + h + m <= |issues| &&
            TotalWeight(issues) == 40 * c + 25 * h + 10 * m + 5 * (|issues| - c - h - m)
  {
    if issues != [] {
      TotalWeightByLevels(issues[..|issues| - 1]);
    }
  }

  /** The probability always lies between 5 and 95 percent. */
  lemma DelayBounds(issues: seq<Finding>)
    ensures NO_ISSUE_DELAY <= DelayProbability(issues) <= DELAY_CAP
    ensures issues != [] ==> DelayProbability(issues) == Min(TotalWeight(issues), DELAY_CAP)
  {
    TotalWeightByLevels(issues);
  }

  function Min(a: int, b: int): int {
    if a < b then a else b
  }

  /** The band is a monotone step function of the probability. */
  lemma DelayBandMonotone(p: int, q: int)
    requires p <= q
    ensures Rank(DelayBand(p)) <= Rank(DelayBand(q))
  {
  }

  /** Reporting one more issue never lowers the probability or the band. */
  lemma {:induction false} MoreIssuesNeverLowerDelay(issues: seq<Finding>, f: Finding)
    ensures DelayProbability(issues) <= DelayProbability(issues + [f])
    ensures Rank(DelayBand(DelayProbability(issues))) <= Rank(DelayBand(DelayProbability(issues + [f])))
  {
    assert (issues + [f])[..|issues + [f]| - 1] == issues;
    assert TotalWeight(issues + [f]) == TotalWeight(issues) + Weight(f);
    DelayBandMonotone(DelayProbability(issues), DelayProbability(issues + [f]));
  }

  /** Two CRITICAL issues alone put the delay band at CRITICAL; one puts it
      at HIGH or above. */
  lemma CriticalIssuesRaiseBand(issues: seq<Finding>)
    ensures CountReading(issues, Some(Critical)) >= 2 ==> DelayBand(DelayProbability(issues)) == Critical
    ensures CountReading(issues, Some(Critical)) >= 1 ==> Rank(DelayBand(DelayProbability(issues))) >= Rank(High)
  {
    TotalWeightByLevels(issues);
  }

  // ---------------------------------------------------------------------
  // prioritize_issues

  /** The priority score written onto a finding: its level's rank, 1 for an
      unrecognised level. */
  function PriorityScore(f: Finding): (s: int)
    ensures 1 <= s <= 4
  {
    match ReadLevel(f)
    case Some(l) => Rank(l)
    case None => 1
  }

  /** The action timeline written onto a finding. */
  function ActionTimeline(f: Finding): (t: string)
    ensures t == "IMMEDIATE - Fix before shipping" <==> ReadLevel(f) == Some(Critical)
    ensures t == "URGENT - Fix within 24 hours" <==> ReadLevel(f) == Some(High)
    ensures t == "SOON - Review before shipping" <==> ReadLevel(f) == Some(Medium)
    ensures t == "OPTIONAL - Monitor" <==> ReadLevel(f) == Some(Low) || ReadLevel(f).None?
  {
    match ReadLevel(f)
    case Some(Critical) => "IMMEDIATE - Fix before shipping"
    case Some(High) => "URGENT - Fix within 24 hours"
    case Some(Medium) => "SOON - Review before shipping"
    case _ => "OPTIONAL - Monitor"
  }

  /** A higher priority score always goes with a higher delay weight, and
      the converse. */
  lemma WeightFollowsPriority(f: Finding, g: Finding)
    ensures PriorityScore(f) < PriorityScore(g) <==> Weight(f) < Weight(g)
  {
  }

  /** Two findings get the same timeline exactly when they get the same
      priority score. */
  lemma TimelineMatchesScore(f: Finding, g: Finding)
    ensures ActionTimeline(f) == ActionTimeline(g) <==> PriorityScore(f) == PriorityScore(g)
  {
  }

  /** The finding with its "priority_score" and "action_timeline" set. */
  function Tag(f: Finding): Finding {
    f.(priorityScore := Some(PriorityScore(f)), actionTimeline := Some(ActionTimeline(f)))
  }

  function Tagged(findings: seq<Finding>): (r: seq<Finding>)
    ensures |r| == |findings|
    ensures forall i :: 0 <= i < |findings| ==> r[i] == Tag(findings[i])
  {
    MapSeq(findings, Tag)
  }

  /** The sort key `x["priority_score"]`. */
  function StoredScore(f: Finding): int {
    f.priorityScore.GetOr(0)
  }

  function DeclaredAs(l: Level): Finding -> bool {
    f => DeclaredLevel(f) == Some(l)
  }

  /** `[f for f in findings if f.get("risk_level") == l]`. */
  function Bucket(findings: seq<Finding>, l: Level): seq<Finding> {
    Filter(findings, DeclaredAs(l))
  }

  datatype Assessment = BlockShipment | ReviewRecommended | ProceedWithCaution | ClearToShip

  /** The result of `prioritize_issues`; the four bucket counts are the
      lengths of the buckets. */
  datatype Prioritization =
    | NoIssues
    | Prioritized(total: nat, findings: seq<Finding>,
                  critical: seq<Finding>, high: seq<Finding>, medium: seq<Finding>, low: seq<Finding>,
                  assessment: Assessment)
  {
    function BucketAt(l: Level): seq<Finding>
      requires Prioritized?
    {
      match l
      case Critical => critical
      case High => high
      case Medium => medium
      case Low => low
    }
  }

  /** Buckets and verdict of an already sorted list of findings. */
  function Summarize(sorted: seq<Finding>, total: nat): Prioritization {
    var critical := Bucket(sorted, Critical);
    var high := Bucket(sorted, High);
    var medium := Bucket(sorted, Medium);
    var low := Bucket(sorted, Low);
    Prioritized(total, sorted, critical, high, medium, low,
      if critical != [] then BlockShipment
      else if high != [] then ReviewRecommended
      else if medium != [] then ProceedWithCaution
      else ClearToShip)
  }

  /** What `prioritize_issues` returns for a list of findings. */
  function Prioritize(findings: seq<Finding>): Prioritization {
    if findings == [] then NoIssues
    else Summarize(SortDesc(Tagged(findings), StoredScore), |findings|)
  }

  /** `prioritize_issues`: writes the score and the timeline onto every
      finding in place, then sorts and summarises. */
  method PrioritizeIssues(findings: array<Finding>) returns (r: Prioritization)
    modifies findings
    ensures findings[..] == Tagged(old(findings[..]))
    ensures r == Prioritize(old(findings[..]))
  {
    if findings.Length == 0 {
      return NoIssues;
    }
    for i := 0 to findings.Length
      invariant forall j :: 0 <= j < i ==> findings[j] == Tag(old(findings[j]))
      invariant forall j :: i <= j < findings.Length ==> findings[j] == old(findings[j])
    {
      findings[i] := Tag(findings[i]);
    }
    assert findings[..] == Tagged(old(findings[..]));
    r := Summarize(SortDesc(findings[..], StoredScore), findings.Length);
  }

  /** Tagging keeps the level, and the stored score is the level's score. */
  lemma TagFacts(f: Finding)
    ensures Tag(f).riskLevel == f.riskLevel
    ensures DeclaredLevel(Tag(f)) == DeclaredLevel(f) && ReadLevel(Tag(f)) == ReadLevel(f)
    ensures StoredScore(Tag(f)) == PriorityScore(Tag(f)) == PriorityScore(f)
  {
  }

  /** A finding carries its level's score, between 1 and 4, and the
      matching timeline. */
  predicate WellTagged(f: Finding) {
    && f.priorityScore == Some(PriorityScore(f))
    && 1 <= PriorityScore(f) <= 4
    && f.actionTimeline == Some(ActionTimeline(f))
  }

  /** Every finding of the prioritised list carries a score between 1 and 4
      that is its level's score, and the matching timeline. */
  lemma PrioritizedTags(findings: seq<Finding>)
    requires findings != []
    ensures var p := Prioritize(findings);
            forall i :: 0 <= i < |p.findings| ==>
              && p.findings[i].priorityScore == Some(PriorityScore(p.findings[i]))
              && 1 <= PriorityScore(p.findings[i]) <= 4
              && p.findings[i].actionTimeline == Some(ActionTimeline(p.findings[i]))
  {
    var p := Prioritize(findings);
    var t := Tagged(findings);
    assert forall j :: 0 <= j < |t| ==> WellTagged(t[j]) by {
      forall j | 0 <= j < |t| ensures WellTagged(t[j]) {
        TagFacts(findings[j]);
      }
    }
    forall i | 0 <= i < |p.findings| ensures WellTagged(p.findings[i]) {
      SortedMembers(t, StoredScore, p.findings[i]);
    }
  }

  /** The findings with stored score `k`. */
  function ScoreIs(k: int): Finding -> bool {
    f => StoredScore(f) == k
  }

  /** The prioritised list is the tagged input, rearranged into
      non-increasing score, with findings of equal score in input order. */
  lemma PrioritizedIsStableSort(findings: seq<Finding>, k: int)
    requires findings != []
    ensures var p := Prioritize(findings);
            && multiset(p.findings) == multiset(Tagged(findings))
            && |p.findings| == p.total == |findings|
            && NonIncreasing(p.findings, StoredScore)
            && Filter(p.findings, ScoreIs(k)) == Filter(Tagged(findings), ScoreIs(k))
  {
    SortKeepsFilter(Tagged(findings), StoredScore, ScoreIs(k), k);
  }

  /** Each bucket holds exactly the findings declared at its level, in input
      order (which is also their order in the prioritised list). */
  lemma BucketsInInputOrder(findings: seq<Finding>, l: Level)
    requires findings != []
    ensures var p := Prioritize(findings);
            && p.BucketAt(l) == Bucket(Tagged(findings), l)
            && (forall i :: 0 <= i < |findings| ==>
                  (Tagged(findings)[i] in p.BucketAt(l) <==> DeclaredLevel(findings[i]) == Some(l)))
  {
    var t := Tagged(findings);
    forall y | y in t && DeclaredAs(l)(y) ensures StoredScore(y) == Rank(l) {
      var j :| 0 <= j < |t| && t[j] == y;
      TagFacts(findings[j]);
    }
    SortKeepsFilter(t, StoredScore, DeclaredAs(l), Rank(l));
    forall i | 0 <= i < |findings|
      ensures t[i] in Bucket(t, l) <==> DeclaredLevel(findings[i]) == Some(l)
    {
      TagFacts(findings[i]);
    }
  }

  function Undeclared(): Finding -> bool {
    f => DeclaredLevel(f).None?
  }

  /** Every finding is in exactly one bucket or undeclared. */
  lemma {:induction false} BucketPartition(t: seq<Finding>)
    ensures |Bucket(t, Critical)| + |Bucket(t, High)| + |Bucket(t, Medium)| + |Bucket(t, Low)|
            + |Filter(t, Undeclared())| == |t|
  {
    if t != [] {
      BucketPartition(t[..|t| - 1]);
    }
  }

  /** The bucket counts add up to at most the number of findings, and to
      exactly that number when every finding states a recognised level. */
  lemma BucketCounts(findings: seq<Finding>)
    requires findings != []
    ensures var p := Prioritize(findings);
            && |p.critical| + |p.high| + |p.medium| + |p.low| <= p.total
            && (|p.critical| + |p.high| + |p.medium| + |p.low| == p.total
                <==> forall i :: 0 <= i < |findings| ==> DeclaredLevel(findings[i]).Some?)
  {
    var p := Prioritize(findings);
    var t := Tagged(findings);
    BucketPartition(p.findings);
    if forall i :: 0 <= i < |findings| ==> DeclaredLevel(findings[i]).Some? {
      forall k | 0 <= k < |p.findings| ensures !Undeclared()(p.findings[k]) {
        var y := p.findings[k];
        SortedMembers(t, StoredScore, y);
        var j :| 0 <= j < |t| && t[j] == y;
        TagFacts(findings[j]);
      }
      FilterKeepsNone(p.findings, Undeclared());
    } else {
      var i :| 0 <= i < |findings| && DeclaredLevel(findings[i]).None?;
      TagFacts(findings[i]);
      SortedMembers(t, StoredScore, t[i]);
      assert t[i] in Filter(p.findings, Undeclared());
    }
  }

  /** Some finding is declared at level `l`. */
  predicate AnyDeclared(findings: seq<Finding>, l: Level) {
    exists i :: 0 <= i < |findings| && DeclaredLevel(findings[i]) == Some(l)
  }

  lemma BucketNonEmpty(findings: seq<Finding>, l: Level)
    requires findings != []
    ensures Prioritize(findings).BucketAt(l) != [] <==> AnyDeclared(findings, l)
  {
    BucketsInInputOrder(findings, l);
    var t := Tagged(findings);
    var b := Prioritize(findings).BucketAt(l);
    if b != [] {
      FilterMember(t, DeclaredAs(l), b[0]);
      assert b[0] in t;
      var j :| 0 <= j < |t| && t[j] == b[0];
      TagFacts(findings[j]);
    }
    if AnyDeclared(findings, l) {
      var i :| 0 <= i < |findings| && DeclaredLevel(findings[i]) == Some(l);
      assert t[i] in b;
    }
  }

  /** The verdict: BLOCK SHIPMENT when any finding is CRITICAL, else REVIEW
      RECOMMENDED when any is HIGH, else PROCEED WITH CAUTION when any is
      MEDIUM, else CLEAR TO SHIP. */
  lemma AssessmentCases(findings: seq<Finding>)
    requires findings != []
    ensures var a := Prioritize(findings).assessment;
            && (a == BlockShipment <==> AnyDeclared(findings, Critical))
            && (a == ReviewRecommended <==> !AnyDeclared(findings, Critical) && AnyDeclared(findings, High))
            && (a == ProceedWithCaution <==>
                  !AnyDeclared(findings, Critical) && !AnyDeclared(findings, High) && AnyDeclared(findings, Medium))
            && (a == ClearToShip <==>
                  !AnyDeclared(findings, Critical) && !AnyDeclared(findings, High) && !AnyDeclared(findings, Medium))
  {
    BucketNonEmpty(findings, Critical);
    BucketNonEmpty(findings, High);
    BucketNonEmpty(findings, Medium);
  }

  // ---------------------------------------------------------------------
  // generate_action_plan

  /** One entry of an action list. */
  datatype Action = Action(issue: string, agent: string, action: string)

  /** The action built from a finding: its message, its agent, and its
      recommended action, else its recommendation, else "Review required". */
  function ActionFor(f: Finding): (a: Action)
    ensures f.message.Some? ==> a.issue == f.message.value
    ensures f.agent.Some? ==> a.agent == f.agent.value
    ensures f.recommendedAction.Some? ==> a.action == f.recommendedAction.value
    ensures f.recommendedAction.None? && f.recommendation.Some? ==> a.action == f.recommendation.value
    ensures f.recommendedAction.None? && f.recommendation.None? ==> a.action == "Review required"
  {
    Action(f.message.GetOr("Unknown issue"), f.agent.GetOr("Unknown"),
           match f.recommendedAction
           case Some(a) => a
           case None => f.recommendation.GetOr("Review required"))
  }

  datatype Urgency = Immediate | Urgent | Recommended

  /** The list a finding's action goes to: declared CRITICAL immediate,
      declared HIGH urgent, everything else recommended. */
  function UrgencyOf(f: Finding): Urgency {
    match DeclaredLevel(f)
    case Some(Critical) => Immediate
    case Some(High) => Urgent
    case _ => Recommended
  }

  function HasUrgency(u: Urgency): Finding -> bool {
    f => UrgencyOf(f) == u
  }

  /** The actions of the findings of urgency `u`, in input order. */
  function ActionsAt(findings: seq<Finding>, u: Urgency): seq<Action> {
    MapSeq(Filter(findings, HasUrgency(u)), ActionFor)
  }

  datatype PlanStatus = Blocked | ReviewRequired | ClearedWithConditions

  /** The result of `generate_action_plan`; `Cleared` is the empty input's
      "CLEARED" plan that requires no action. */
  datatype ActionPlan =
    | Cleared(shipmentId: string)
    | Plan(shipmentId: string, status: PlanStatus, total: nat,
           immediate: seq<Action>, urgent: seq<Action>, recommended: seq<Action>)

  function PlanStatusOf(findings: seq<Finding>): PlanStatus {
    if Bucket(findings, Critical) != [] then Blocked
    else if Bucket(findings, High) != [] then ReviewRequired
    else ClearedWithConditions
  }

  /** The action plan defined list by list. */
  function ActionPlanOf(shipmentId: string, findings: seq<Finding>): ActionPlan {
    if findings == [] then Cleared(shipmentId)
    else Plan(shipmentId, PlanStatusOf(findings), |findings|,
              ActionsAt(findings, Immediate), ActionsAt(findings, Urgent), ActionsAt(findings, Recommended))
  }

  /** The urgency is `generate_action_plan`'s string test on the
      "risk_level" field. */
  lemma UrgencyOfLevelString(f: Finding)
    ensures UrgencyOf(f) == Immediate <==> f.riskLevel == Some("CRITICAL")
    ensures UrgencyOf(f) == Urgent <==> f.riskLevel == Some("HIGH")
  {
  }

  lemma ActionsAtSnoc(findings: seq<Finding>, f: Finding, u: Urgency)
    ensures ActionsAt(findings + [f], u)
            == ActionsAt(findings, u) + (if UrgencyOf(f) == u then [ActionFor(f)] else [])
  {
    FilterSnoc(findings, f, HasUrgency(u));
    if UrgencyOf(f) == u {
      MapSeqSnoc(Filter(findings, HasUrgency(u)), f, ActionFor);
    }
  }

  /** One more finding of a prefix adds its action to its urgency's list. */
  lemma ActionsAtStep(findings: seq<Finding>, i: int, u: Urgency)
    requires 0 <= i < |findings|
    ensures ActionsAt(findings[..i + 1], u)
            == ActionsAt(findings[..i], u) + (if UrgencyOf(findings[i]) == u then [ActionFor(findings[i])] else [])
  {
    assert findings[..i + 1] == findings[..i] + [findings[i]];
    ActionsAtSnoc(findings[..i], findings[i], u);
  }

  /** The loop of `generate_action_plan`: one pass that appends each
      finding's action to the list its "risk_level" string selects. */
  method SortActions(findings: seq<Finding>) returns (immediate: seq<Action>, urgent: seq<Action>, recommended: seq<Action>)
    ensures immediate == ActionsAt(findings, Immediate)
    ensures urgent == ActionsAt(findings, Urgent)
    ensures recommended == ActionsAt(findings, Recommended)
  {
    immediate, urgent, recommended := [], [], [];
    for i := 0 to |findings|
      invariant immediate == ActionsAt(findings[..i], Immediate)
      invariant urgent == ActionsAt(findings[..i], Urgent)
      invariant recommended == ActionsAt(findings[..i], Recommended)
    {
      var f := findings[i];
      var action := ActionFor(f);
      ActionsAtStep(findings, i, Immediate);
      ActionsAtStep(findings, i, Urgent);
      ActionsAtStep(findings, i, Recommended);
      UrgencyOfLevelString(f);
      if f.riskLevel == Some("CRITICAL") {
        immediate := immediate + [action];
      } else if f.riskLevel == Some("HIGH") {
        urgent := urgent + [action];
      } else {
        recommended := recommended + [action];
      }
    }
    assert findings[..|findings|] == findings;
  }

  /** `generate_action_plan`: the empty input is cleared; otherwise the
      three action lists and the status from the CRITICAL and HIGH buckets. */
  method GenerateActionPlan(shipmentId: string, findings: seq<Finding>) returns (plan: ActionPlan)
    ensures plan == ActionPlanOf(shipmentId, findings)
  {
    if |findings| == 0 {
      return Cleared(shipmentId);
    }
    var critical := Bucket(findings, Critical);
    var high := Bucket(findings, High);
    var immediate, urgent, recommended := SortActions(findings);
    var status := if critical != [] then Blocked
                  else if high != [] then ReviewRequired
                  else ClearedWithConditions;
    plan := Plan(shipmentId, status, |findings|, immediate, urgent, recommended);
  }

  /** Every finding's action goes to exactly one list, so the action counts
      add up to the number of findings, and the three lists together are a
      rearrangement of the findings. */
  lemma ActionPlanPartition(shipmentId: string, findings: seq<Finding>)
    requires findings != []
    ensures var plan := ActionPlanOf(shipmentId, findings);
            && |plan.immediate| + |plan.urgent| + |plan.recommended| == plan.total == |findings|
            && multiset(Filter(findings, HasUrgency(Immediate))) + multiset(Filter(findings, HasUrgency(Urgent)))
               + multiset(Filter(findings, HasUrgency(Recommended))) == multiset(findings)
            && forall i :: 0 <= i < |findings| ==>
                 findings[i] in Filter(findings, HasUrgency(UrgencyOf(findings[i])))
  {
    FilterPartition3(findings, HasUrgency(Immediate), HasUrgency(Urgent), HasUrgency(Recommended));
  }

  /** The plan's status: CLEARED exactly for no findings; otherwise BLOCKED
      exactly when some finding is CRITICAL, REVIEW REQUIRED when none is but
      some is HIGH, CLEARED WITH CONDITIONS otherwise. */
  lemma ActionPlanStatus(shipmentId: string, findings: seq<Finding>)
    ensures ActionPlanOf(shipmentId, findings).Cleared? <==> findings == []
    ensures var plan := ActionPlanOf(shipmentId, findings);
            plan.Plan? ==>
              && (plan.status == Blocked <==> AnyDeclared(findings, Critical))
              && (plan.status == ReviewRequired <==> !AnyDeclared(findings, Critical) && AnyDeclared(findings, High))
              && (plan.status == ClearedWithConditions <==>
                    !AnyDeclared(findings, Critical) && !AnyDeclared(findings, High))
  {
    BucketNonEmptyIff(findings, Critical);
    BucketNonEmptyIff(findings, High);
  }

  lemma BucketNonEmptyIff(findings: seq<Finding>, l: Level)
    ensures Bucket(findings, l) != [] <==> AnyDeclared(findings, l)
  {
    if Bucket(findings, l) != [] {
      FilterMember(findings, DeclaredAs(l), Bucket(findings, l)[0]);
      assert Bucket(findings, l)[0] in findings;
    }
  }

  /** Planning from the prioritised list agrees with the prioritiser: the
      plan is BLOCKED exactly when the verdict is BLOCK SHIPMENT, needs review
      exactly when the verdict is REVIEW RECOMMENDED, and its immediate and
      urgent actions are those of the CRITICAL and HIGH buckets, in order. */
  lemma PlanAgreesWithPrioritization(shipmentId: string, findings: seq<Finding>)
    requires findings != []
    ensures var p := Prioritize(findings);
            var plan := ActionPlanOf(shipmentId, p.findings);
            && plan.Plan? && plan.total == p.total
            && (plan.status == Blocked <==> p.assessment == BlockShipment)
            && (plan.status == ReviewRequired <==> p.assessment == ReviewRecommended)
            && plan.immediate == MapSeq(p.critical, ActionFor)
            && plan.urgent == MapSeq(p.high, ActionFor)
  {
    var p := Prioritize(findings);
    FilterSamePredicate(p.findings, HasUrgency(Immediate), DeclaredAs(Critical));
    FilterSamePredicate(p.findings, HasUrgency(Urgent), DeclaredAs(High));
  }
}
