/** The four risk levels every rule reports, and the strings that stand for
    them in a finding's "risk_level" field. */
module Levels {
  import opened Wrappers

  datatype Level = Low | Medium | High | Critical

  /** The level's priority score: LOW 1, MEDIUM 2, HIGH 3, CRITICAL 4. */
  function Rank(l: Level): (n: int)
    ensures 1 <= n <= 4
  {
    match l
    case Low => 1
    case Medium => 2
    case High => 3
    case Critical => 4
  }

  /** The level as the rules write it. */
  function Name(l: Level): string {
    match l
    case Low => "LOW"
    case Medium => "MEDIUM"
    case High => "HIGH"
    case Critical => "CRITICAL"
  }

  /** Reads a "risk_level" string; anything other than the four names is
      unrecognised. Exact and case-sensitive, like the dictionary lookups of
      `calculate_delay_probability` and `prioritize_issues`. */
  function Parse(s: string): (r: Option<Level>)
    ensures r.Some? ==> Name(r.value) == s
    ensures r.None? ==> forall l :: Name(l) != s
  {
    if s == "CRITICAL" then Some(Critical)
    else if s == "HIGH" then Some(High)
    else if s == "MEDIUM" then Some(Medium)
    else if s == "LOW" then Some(Low)
    else None
  }

  /** Writing a level and reading it back gives the level. */
  lemma ParseName(l: Level)
    ensures Parse(Name(l)) == Some(l)
  {
  }

  /** The scores order the levels strictly. */
  lemma RankInjective(a: Level, b: Level)
    ensures Rank(a) == Rank(b) <==> a == b
  {
  }
}
