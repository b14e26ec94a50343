/** The supplier history agent's ranking: `identify_common_issues` lists a
    supplier's recurring issues, most frequent first. */
module SupplierAgent {
  import opened Wrappers
  import opened Seqs
  import opened Sorting

  /** One recurring issue; an absent `occurrences` counts as 0. */
  datatype CommonIssue = CommonIssue(issue: Option<string>, occurrences: Option<int>)

  /** A supplier history entry: an empty JSON object, or one whose
      `common_issues` list (absent reads as empty) the rule ranks. */
  datatype Supplier = EmptyHistory | History(commonIssues: seq<CommonIssue>)

  function Occurrences(x: CommonIssue): int {
    x.occurrences.GetOr(0)
  }

  /** The answer of `identify_common_issues`. */
  datatype IssueReport =
    | NoHistory(supplierName: string)
    | NoRecurringIssues(supplierName: string)
    | IssuesFound(supplierName: string, issueCount: nat, commonIssues: seq<CommonIssue>, topIssue: CommonIssue)

  /** `identify_common_issues`: the issues sorted by occurrences, largest
      first and ties in file order, with the first of them as top issue. */
  function IdentifyCommonIssues(suppliers: map<string, Supplier>, supplierName: string): (r: IssueReport)
    ensures r.NoHistory? <==> supplierName !in suppliers || suppliers[supplierName].EmptyHistory?
    ensures r.NoRecurringIssues? <==> supplierName in suppliers && suppliers[supplierName] == History([])
    ensures r.IssuesFound? ==>
              && var issues := suppliers[supplierName].commonIssues;
              && multiset(r.commonIssues) == multiset(issues)
              && r.issueCount == |issues|
              && NonIncreasing(r.commonIssues, Occurrences)
              && r.commonIssues != [] && r.topIssue == r.commonIssues[0]
              && r.topIssue in issues
              && forall i :: 0 <= i < |issues| ==> Occurrences(issues[i]) <= Occurrences(r.topIssue)
  {
    if supplierName !in suppliers || suppliers[supplierName].EmptyHistory? then NoHistory(supplierName)
    else
      var issues := suppliers[supplierName].commonIssues;
      if issues == [] then NoRecurringIssues(supplierName)
      else
        var sorted := SortDesc(issues, Occurrences);
        SortedMembers(issues, Occurrences, sorted[0]);
        TopIsMaximal(issues, sorted);
        IssuesFound(supplierName, |sorted|, sorted, sorted[0])
  }

  /** The head of a non-increasing permutation bounds every element. */
  lemma TopIsMaximal(issues: seq<CommonIssue>, sorted: seq<CommonIssue>)
    requires sorted != [] && multiset(sorted) == multiset(issues) && NonIncreasing(sorted, Occurrences)
    ensures forall i :: 0 <= i < |issues| ==> Occurrences(issues[i]) <= Occurrences(sorted[0])
  {
    forall i | 0 <= i < |issues| ensures Occurrences(issues[i]) <= Occurrences(sorted[0]) {
      assert issues[i] in multiset(sorted);
      var k :| 0 <= k < |sorted| && sorted[k] == issues[i];
    }
  }

  function OccursTimes(n: int): CommonIssue -> bool {
    (x: CommonIssue) => Occurrences(x) == n
  }

  /** Issues seen equally often stay in their file order. */
  lemma TiesKeepFileOrder(suppliers: map<string, Supplier>, supplierName: string, n: int)
    requires IdentifyCommonIssues(suppliers, supplierName).IssuesFound?
    ensures Filter(IdentifyCommonIssues(suppliers, supplierName).commonIssues, OccursTimes(n))
         == Filter(suppliers[supplierName].commonIssues, OccursTimes(n))
  {
    SortKeepsFilter(suppliers[supplierName].commonIssues, Occurrences, OccursTimes(n), n);
  }

  /** The top issue is the first issue in file order among those seen most
      often: a tie goes to the earliest. */
  lemma TopIsFirstMaximal(suppliers: map<string, Supplier>, supplierName: string)
    requires IdentifyCommonIssues(suppliers, supplierName).IssuesFound?
    ensures var issues := suppliers[supplierName].commonIssues;
            var top := IdentifyCommonIssues(suppliers, supplierName).topIssue;
            exists i :: 0 <= i < |issues| && issues[i] == top
                        && forall j :: 0 <= j < i ==> Occurrences(issues[j]) < Occurrences(top)
  {
    var r := IdentifyCommonIssues(suppliers, supplierName);
    TiesKeepFileOrder(suppliers, supplierName, Occurrences(r.topIssue));
    FirstOfMostFrequent(suppliers[supplierName].commonIssues, r.commonIssues, Occurrences(r.topIssue));
  }

  /** When the ranking keeps the file order of the issues seen as often as
      its head, and the head is seen most often, the head is the first such
      issue in the file. */
  lemma FirstOfMostFrequent(issues: seq<CommonIssue>, ranked: seq<CommonIssue>, n: int)
    requires ranked != [] && Occurrences(ranked[0]) == n
    requires forall i :: 0 <= i < |issues| ==> Occurrences(issues[i]) <= n
    requires Filter(ranked, OccursTimes(n)) == Filter(issues, OccursTimes(n))
    ensures exists i :: 0 <= i < |issues| && issues[i] == ranked[0]
                        && forall j :: 0 <= j < i ==> Occurrences(issues[j]) < n
  {
    FilterHeadsAgree(ranked, issues, OccursTimes(n));
    var i := FirstMatch(issues, OccursTimes(n)).value;
    forall j | 0 <= j < i ensures Occurrences(issues[j]) < n {
      assert !OccursTimes(n)(issues[j]);
    }
  }
}
