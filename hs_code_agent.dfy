/** The HS code agent: looking a product up in the HS code database,
    searching past CBP rulings by keyword, and comparing the HS code declared
    on an invoice with a suggested one by its seven-character base. */
module HsCodeAgent {
  import opened Wrappers
  import opened Seqs
  import opened Text
  import opened Documents
  import opened Levels

  /** One entry of the HS code database, keyed by its code. Absent
      `common_names` reads as the empty list, absent `subcategories` as the
      empty object. */
  datatype HsEntry = HsEntry(
    description: Option<string>,
    commonNames: seq<string>,
    dutyRate: Option<string>,
    notes: Option<string>,
    subcategories: Record)

  function NamesProduct(productLower: string): ((string, HsEntry)) -> bool {
    (e: (string, HsEntry)) => AnyIn(e.1.commonNames, productLower)
  }

  /** The database entries that name the product, in database order. */
  function HsMatches(db: Table<HsEntry>, productDescription: string): seq<(string, HsEntry)> {
    Filter(db, NamesProduct(Lower(productDescription)))
  }

  /** The answer of `lookup_hs_code_database`: no match, or the matching
      codes with their entries. */
  datatype HsLookup =
    | NoHsMatch(productDescription: string)
    | HsFound(productDescription: string, matches: seq<(string, HsEntry)>)
  {
    function MatchCount(): nat {
      if NoHsMatch? then 0 else |matches|
    }
  }

  /** `lookup_hs_code_database`: collects, in database order, every code one
      of whose common names occurs in the lower-cased description. */
  method LookupHsCodeDatabase(db: Table<HsEntry>, productDescription: string) returns (r: HsLookup)
    ensures r.NoHsMatch? <==> forall i :: 0 <= i < |db| ==> !AnyIn(db[i].1.commonNames, Lower(productDescription))
    ensures r.HsFound? ==> r.matches == HsMatches(db, productDescription) && r.matches != []
    ensures r.productDescription == productDescription
  {
    var productLower := Lower(productDescription);
    var matches: seq<(string, HsEntry)> := [];
    for i := 0 to |db|
      invariant matches == Filter(db[..i], NamesProduct(productLower))
    {
      var (code, details) := db[i];
      if AnyIn(details.commonNames, productLower) {
        matches := matches + [(code, details)];
      }
      HsStep(db, i, productLower);
    }
    assert db[..|db|] == db;
    NoHsMatchIff(db, productDescription);
    if matches == [] {
      r := NoHsMatch(productDescription);
    } else {
      r := HsFound(productDescription, matches);
    }
  }

  lemma HsStep(db: Table<HsEntry>, i: int, productLower: string)
    requires 0 <= i < |db|
    ensures Filter(db[..i + 1], NamesProduct(productLower))
         == Filter(db[..i], NamesProduct(productLower))
            + (if AnyIn(db[i].1.commonNames, productLower) then [db[i]] else [])
  {
    assert db[..i + 1] == db[..i] + [db[i]];
    FilterSnoc(db[..i], db[i], NamesProduct(productLower));
  }

  /** Nothing matches exactly when no entry's common names occur in the
      lower-cased description. */
  lemma NoHsMatchIff(db: Table<HsEntry>, productDescription: string)
    ensures HsMatches(db, productDescription) == []
        <==> forall i :: 0 <= i < |db| ==> !AnyIn(db[i].1.commonNames, Lower(productDescription))
  {
    var p := NamesProduct(Lower(productDescription));
    var m := HsMatches(db, productDescription);
    if m != [] {
      FilterMember(db, p, m[0]);
      assert m[0] in db;
    }
  }

  /** A code is matched exactly when it is in the database and one of its
      common names occurs in the lower-cased description. */
  lemma HsMatchIff(db: Table<HsEntry>, productDescription: string, code: string, e: HsEntry)
    ensures (code, e) in HsMatches(db, productDescription)
        <==> (code, e) in db && exists i :: 0 <= i < |e.commonNames| && Contains(Lower(productDescription), e.commonNames[i])
  {
    FilterMember(db, NamesProduct(Lower(productDescription)), (code, e));
  }

  /** Common names are compared as stored: an entry whose every common name
      holds an ASCII capital is never matched, whatever the description. */
  lemma CapitalisedNamesNeverMatch(db: Table<HsEntry>, productDescription: string, code: string, e: HsEntry)
    requires forall i :: 0 <= i < |e.commonNames| ==> exists k :: 0 <= k < |e.commonNames[i]| && IsUpper(e.commonNames[i][k])
    ensures (code, e) !in HsMatches(db, productDescription)
  {
    HsMatchIff(db, productDescription, code, e);
    forall i | 0 <= i < |e.commonNames| ensures !Contains(Lower(productDescription), e.commonNames[i]) {
      var k :| 0 <= k < |e.commonNames[i]| && IsUpper(e.commonNames[i][k]);
      CapitalNeverInLowered(productDescription, e.commonNames[i], k);
    }
  }

  /** One CBP ruling: its keyword list (absent reads as empty) and the rest
      of its fields, which the search returns untouched. */
  datatype Ruling = Ruling(keywords: seq<string>, fields: Record)

  function LowerAll(ks: seq<string>): (r: seq<string>)
    ensures |r| == |ks|
    ensures forall i :: 0 <= i < |ks| ==> r[i] == Lower(ks[i])
  {
    MapSeq(ks, Lower)
  }

  /** `any(kw in ruling_keywords for kw in keywords_lower)`: list membership,
      so whole keywords are compared, not substrings. */
  predicate SharesKeyword(keywordsLower: seq<string>, rulingKeywordsLower: seq<string>) {
    exists i :: 0 <= i < |keywordsLower| && keywordsLower[i] in rulingKeywordsLower
  }

  function MatchesKeywords(keywordsLower: seq<string>): Ruling -> bool {
    (ruling: Ruling) => SharesKeyword(keywordsLower, LowerAll(ruling.keywords))
  }

  /** The rulings that share a keyword with the search, in file order. */
  function RulingsFor(rulings: seq<Ruling>, keywords: seq<string>): seq<Ruling> {
    Filter(rulings, MatchesKeywords(LowerAll(keywords)))
  }

  /** The answer of `search_cbp_rulings`. Both outcomes are successes. */
  datatype CbpSearch =
    | NoRulings
    | RulingsFound(keywordsSearched: seq<string>, rulingsFound: nat, rulings: seq<Ruling>)

  /** `search_cbp_rulings`: collects, in file order, every ruling that shares
      a keyword with the search, ignoring ASCII case on both sides. */
  method SearchCbpRulings(rulings: seq<Ruling>, keywords: seq<string>) returns (r: CbpSearch)
    ensures r.NoRulings? <==> RulingsFor(rulings, keywords) == []
    ensures r.RulingsFound? ==> r == RulingsFound(keywords, |RulingsFor(rulings, keywords)|, RulingsFor(rulings, keywords))
  {
    var keywordsLower := LowerAll(keywords);
    var matching: seq<Ruling> := [];
    for i := 0 to |rulings|
      invariant matching == Filter(rulings[..i], MatchesKeywords(keywordsLower))
    {
      var rulingKeywords := LowerAll(rulings[i].keywords);
      if SharesKeyword(keywordsLower, rulingKeywords) {
        matching := matching + [rulings[i]];
      }
      SearchStep(rulings, i, keywordsLower);
    }
    assert rulings[..|rulings|] == rulings;
    if matching == [] {
      r := NoRulings;
    } else {
      r := RulingsFound(keywords, |matching|, matching);
    }
  }

  lemma SearchStep(rulings: seq<Ruling>, i: int, keywordsLower: seq<string>)
    requires 0 <= i < |rulings|
    ensures Filter(rulings[..i + 1], MatchesKeywords(keywordsLower))
         == Filter(rulings[..i], MatchesKeywords(keywordsLower))
            + (if SharesKeyword(keywordsLower, LowerAll(rulings[i].keywords)) then [rulings[i]] else [])
  {
    assert rulings[..i + 1] == rulings[..i] + [rulings[i]];
    FilterSnoc(rulings[..i], rulings[i], MatchesKeywords(keywordsLower));
  }

  /** A ruling is found exactly when one of the searched keywords equals one
      of its keywords up to ASCII case. */
  lemma RulingFoundIff(rulings: seq<Ruling>, keywords: seq<string>, ruling: Ruling)
    ensures ruling in RulingsFor(rulings, keywords)
        <==> ruling in rulings && exists i, j :: 0 <= i < |keywords| && 0 <= j < |ruling.keywords| && Lower(keywords[i]) == Lower(ruling.keywords[j])
  {
    FilterMember(rulings, MatchesKeywords(LowerAll(keywords)), ruling);
    SharesKeywordIff(keywords, ruling.keywords);
  }

  /** Two keyword lists share a keyword after lower-casing exactly when some
      keyword of one equals some keyword of the other up to ASCII case. */
  lemma SharesKeywordIff(keywords: seq<string>, rulingKeywords: seq<string>)
    ensures SharesKeyword(LowerAll(keywords), LowerAll(rulingKeywords))
        <==> exists i, j :: 0 <= i < |keywords| && 0 <= j < |rulingKeywords| && Lower(keywords[i]) == Lower(rulingKeywords[j])
  {
    var kl, rl := LowerAll(keywords), LowerAll(rulingKeywords);
    if SharesKeyword(kl, rl) {
      var i :| 0 <= i < |kl| && kl[i] in rl;
      var j :| 0 <= j < |rl| && rl[j] == kl[i];
      assert Lower(keywords[i]) == Lower(rulingKeywords[j]);
    }
    if exists i, j :: 0 <= i < |keywords| && 0 <= j < |rulingKeywords| && Lower(keywords[i]) == Lower(rulingKeywords[j]) {
      var i, j :| 0 <= i < |keywords| && 0 <= j < |rulingKeywords| && Lower(keywords[i]) == Lower(rulingKeywords[j]);
      assert kl[i] == rl[j];
    }
  }

  /** The base code: the first seven characters, or the whole code when it
      is shorter. */
  function Base(code: string): (b: string)
    ensures b <= code
    ensures |b| == if |code| >= 7 then 7 else |code|
  {
    if |code| >= 7 then code[..7] else code
  }

  datatype HsStatus = Pass | Warning | Fail

  /** The answer of `compare_hs_codes`. The descriptions are reported only
      when the codes differ. */
  datatype HsComparison = HsComparison(
    exact: bool,
    baseMatch: bool,
    status: HsStatus,
    risk: Level,
    invoiceDescription: Option<string>,
    suggestedDescription: Option<string>)

  /** `hs_db.get(base, {}).get("description", "Unknown")`. */
  function DescriptionOf(db: Table<HsEntry>, base: string): (r: string)
    ensures Lookup(db, base).None? ==> r == "Unknown"
    ensures Lookup(db, base).Some? && Lookup(db, base).value.description.Some? ==> r == Lookup(db, base).value.description.value
    ensures r != "Unknown" ==> Lookup(db, base).Some? && Lookup(db, base).value.description == Some(r)
  {
    match Lookup(db, base)
    case Some(e) => e.description.GetOr("Unknown")
    case None => "Unknown"
  }

  /** `compare_hs_codes`. */
  function CompareHsCodes(db: Table<HsEntry>, invoiceCode: string, suggestedCode: string): (r: HsComparison)
    ensures r.exact <==> invoiceCode == suggestedCode
    ensures r.baseMatch <==> Base(invoiceCode) == Base(suggestedCode)
    ensures r.status == Pass ==> r.risk == Low && r.invoiceDescription.None? && r.suggestedDescription.None?
    ensures r.status == Warning ==> r.risk == Medium
    ensures r.status == Fail ==> r.risk == Critical
    ensures r.status != Pass ==>
              && r.invoiceDescription == Some(DescriptionOf(db, Base(invoiceCode)))
              && r.suggestedDescription == Some(DescriptionOf(db, Base(suggestedCode)))
  {
    var invoiceBase := Base(invoiceCode);
    var suggestedBase := Base(suggestedCode);
    var exact := invoiceCode == suggestedCode;
    var baseMatch := invoiceBase == suggestedBase;
    if exact then HsComparison(true, true, Pass, Low, None, None)
    else
      var status := if baseMatch then Warning else Fail;
      var risk := if baseMatch then Medium else Critical;
      HsComparison(false, baseMatch, status, risk,
        Some(DescriptionOf(db, invoiceBase)), Some(DescriptionOf(db, suggestedBase)))
  }

  /** The three verdicts, each with the condition that gives it. */
  lemma HsVerdicts(db: Table<HsEntry>, a: string, b: string)
    ensures CompareHsCodes(db, a, b).status == Pass <==> a == b
    ensures CompareHsCodes(db, a, b).status == Warning <==> a != b && Base(a) == Base(b)
    ensures CompareHsCodes(db, a, b).status == Fail <==> Base(a) != Base(b)
  {
  }

  /** An exact match is always a base match. */
  lemma ExactImpliesBaseMatch(db: Table<HsEntry>, a: string, b: string)
    requires CompareHsCodes(db, a, b).exact
    ensures CompareHsCodes(db, a, b).baseMatch
  {
  }

  /** Swapping the codes gives the same verdict. */
  lemma CompareHsCodesSymmetric(db: Table<HsEntry>, a: string, b: string)
    ensures CompareHsCodes(db, a, b).status == CompareHsCodes(db, b, a).status
  {
  }

  /** Codes agreeing on their first seven characters never fail, and a code
      shorter than seven characters fails against every code of seven or
      more. */
  lemma SharedPrefixNeverFails(db: Table<HsEntry>, a: string, b: string)
    requires |a| >= 7 && |b| >= 7 && a[..7] == b[..7]
    ensures CompareHsCodes(db, a, b).status != Fail
  {
  }

  lemma ShortCodeFailsAgainstLong(db: Table<HsEntry>, a: string, b: string)
    requires |a| < 7 <= |b|
    ensures CompareHsCodes(db, a, b).status == Fail
  {
    assert |Base(a)| != |Base(b)|;
  }
}
