# CrossCheck rule engine in Dafny

This project models the deterministic rule engine of the CrossCheck customs
compliance server (`server.py`) and proves properties of it. That engine is
what each compliance "agent" calls to check a shipment's trade documents
(invoices, packing lists, bills of lading, certificates) against reference
tables: HS codes, CBP rulings, regulatory rules, market prices, vessel
schedules and supplier histories. It also turns the agents' findings into a
delay probability, a prioritised list with a verdict, and an action plan.

The JSON files the server reads become parameters:

- A JSON object that a rule iterates (the documents, the certificates, the
  HS code database, the market prices) is a `Table`, an ordered list of
  (key, entry) pairs. It is ordered because Python dictionaries keep
  insertion order, and several rules take the first or the last match.
- A JSON object that a rule only looks up (vessel schedules, supplier
  histories) is a `map`.
- A field value is `Documents.Value`: text, an integer, a boolean or a list
  of text. Python truthiness is `Truthy` and `str()` is `Display`.
- A finding's `risk_level` is optional. `RiskScorer.ReadLevel` models
  `get("risk_level", "LOW")`, where a missing level reads as LOW.
  `RiskScorer.DeclaredLevel` models the `get("risk_level") == ...` tests,
  where a missing level belongs to no level at all. The two readings are
  why unknown levels score 1 but fall in no bucket.

Modules:

- `Wrappers`: the `Option` and `Result` types.
- `Seqs`: order-preserving filter, map, first match and last match.
- `Text`: `lower`, `strip`, the substring test, `split(",")[0]` and `str(int)`.
- `Documents`: values, records, tables, `fetch_document` and `get_shipment_documents`.
- `Levels`: the four risk levels and their scores.
- `Sorting`: Python's stable `sorted(..., reverse=True)`.
- One module per agent: `HsCodeAgent`, `ConsistencyAgent`, `RegulatoryAgent`,
  `OriginAgent`, `ValueAgent`, `RouteAgent`, `SupplierAgent`, `RiskScorer`.

Where `server.py` changes state step by step, the model is a method. This
covers the accumulating loops, the search loops with `break`, the
`append`-built result lists, and the in-place tagging of findings (a method
over an `array`). Each such method is proved against a specification
function, and the properties are lemmas about that function.

## Model

| member | source | states |
|---|---|---|
| Text.Lower | server.py:273 | `str.lower()` keeps the length and lower-cases letter by letter |
| Text.LowerIdempotent | server.py:273 | lower-casing twice is lower-casing once |
| Text.LowerHasNoCapitals | server.py:273 | a lower-cased string holds no ASCII capital |
| Text.CapitalNeverInLowered | server.py:279 | a needle with an ASCII capital never occurs in a lower-cased string |
| Text.StripStart | server.py:474 | `lstrip` keeps a suffix, drops only whitespace, and stops at a non-space |
| Text.StripEnd | server.py:474 | `rstrip` keeps a prefix, drops only whitespace, and stops at a non-space |
| Text.StripIsTrimmedInfix | server.py:474 | `strip` returns one contiguous infix with only whitespace cut on either side |
| Text.StripEndsNotSpace | server.py:474 | what `strip` returns neither starts nor ends with whitespace |
| Text.StripIdempotent | server.py:474 | stripping twice is stripping once |
| Text.FirstSegment | server.py:1259 | `split(",")[0]` is the longest comma-free prefix: it is followed by a comma or is the whole string |
| Documents.Get | server.py:1165-1168 | `record.get(key)` gives the field's value exactly when the key is present |
| Text.Decimal | server.py:474 | `str(n)` of an integer is a minus sign exactly for a negative number, then decimal digits that read back as its magnitude, with no leading zero except for 0 itself |
| Text.CanonicalDigits | server.py:474 | the text form is canonical: every digit string without a leading zero is the text of the number it denotes |
| Documents.DisplayIntCanonical | server.py:474 | an integer displays exactly as the digit text that denotes it, so `7` and `"7"` show alike |
| Text.DecimalInjective | server.py:474 | different integers never show as the same text |
| Documents.Truthy | server.py:468-469 | Python truthiness: `None`, `""`, `0`, `False` and `[]` are false, every other value is true |
| Documents.Display | server.py:474 | `str(value)`: text is itself, an integer its decimal form, a boolean `True`/`False`, a list bracketed |
| Documents.Lookup | server.py:48 | `dict.get` is None exactly when no pair has the key, else the entry of a pair with that key |
| Documents.LookupExact | server.py:48 | with distinct keys, lookup finds exactly the paired entry |
| Documents.FetchDocument | server.py:45-52 | succeeds exactly for a present, non-empty document; otherwise the error lists every document id |
| Documents.ShipmentDocuments | server.py:54-58 | every kept document has the shipment's `shipment_id`, and every such document is kept |
| Documents.ShipmentDocumentsMember | server.py:54-58 | a document is the shipment's exactly when it is in the table and carries the shipment's id |
| Levels.Parse | server.py:1617-1622 | the four level names read back as their levels; any other string is unrecognised |
| Levels.RankInjective | server.py:1617-1622 | different levels have different scores |
| Levels.ParseName | server.py:1617-1622 | writing a level and reading it back gives the level |
| Levels.Rank | server.py:1617-1622 | the priority scores lie in 1..4 |
| Seqs.FirstMatch | server.py:692-695 | a search stopping at the first hit: None exactly when nothing matches, else a matching index with no match before it |
| Seqs.LastIndex | server.py:1254-1264 | the position of the last element that supplies a value: None exactly when none does |
| Seqs.LastSome | server.py:1254-1264 | a loop that overwrites a variable: the value of the last element that supplies one |
| Sorting.SortDesc | server.py:1637 | `sorted(..., reverse=True)` returns a permutation in non-increasing key order |
| Sorting.InsertDescSorted | server.py:1637 | inserting into a key-sorted list keeps it sorted |
| Sorting.SortKeepsFilter | server.py:1637 | the sort is stable: the elements of any one key keep their input order |
| Sorting.SortedMembers | server.py:1637 | sorting keeps exactly the input's elements |
| RiskScorer.ReadingsAgree | server.py:1625 | where a level is declared both readings agree; a missing level reads as LOW but is undeclared |
| RiskScorer.Weight | server.py:1514-1524 | `risk_weights.get(level, 5)`: every issue weighs between 5 and 40 |
| RiskScorer.WeightFollowsPriority | server.py:1514-1524 | one issue weighs less than another exactly when its priority score is lower |
| RiskScorer.DelayBand | server.py:1528-1539 | the band's score counts the thresholds 20, 40 and 70 that the probability reaches |
| RiskScorer.CalculateDelayProbability | server.py:1506-1547 | the loop's total is the sum of the weights; the percent is the capped total (5 with no issues) and the level is its band |
| RiskScorer.TotalWeightByLevels | server.py:1514-1524 | the total weight is 40 per CRITICAL, 25 per HIGH, 10 per MEDIUM and 5 per other issue |
| RiskScorer.DelayBounds | server.py:1521-1526 | the probability lies in 5..95 and is `min(total, 95)` for a non-empty list |
| RiskScorer.DelayBandMonotone | server.py:1528-1539 | a higher probability never gets a lower band |
| RiskScorer.MoreIssuesNeverLowerDelay | server.py:1521-1539 | one more issue never lowers the probability or the band |
| RiskScorer.CriticalIssuesRaiseBand | server.py:1514-1539 | two CRITICAL issues give a CRITICAL band; one gives HIGH or above |
| RiskScorer.PriorityScore | server.py:1617-1625 | `priority_scores.get(level, 1)`: the score lies in 1..4 |
| RiskScorer.ActionTimeline | server.py:1627-1635 | each timeline appears exactly for its level, read with LOW as default; OPTIONAL for LOW and for any unrecognised level |
| RiskScorer.TimelineMatchesScore | server.py:1617-1635 | two findings get the same timeline exactly when they get the same priority score |
| RiskScorer.Tagged | server.py:1624-1635 | every finding is tagged, position by position |
| RiskScorer.PrioritizeIssues | server.py:1609-1656 | writes score and timeline onto every array element in place, and returns the prioritisation of the untagged input |
| RiskScorer.PrioritizedTags | server.py:1624-1635 | every prioritised finding carries its level's score in 1..4 and the matching timeline |
| RiskScorer.PrioritizedIsStableSort | server.py:1637 | the prioritised list is a permutation of the tagged findings; it is non-increasing by score, and ties keep input order |
| RiskScorer.BucketsInInputOrder | server.py:1639-1642 | each bucket is exactly the findings declared at its level, in input order |
| RiskScorer.BucketPartition | server.py:1639-1642 | the four buckets and the undeclared findings split the list |
| RiskScorer.BucketCounts | server.py:1646-1650 | the bucket counts sum to at most the total, and to the total exactly when every level is declared |
| RiskScorer.BucketNonEmpty | server.py:1656 | a bucket is non-empty exactly when some finding is declared at its level |
| RiskScorer.AssessmentCases | server.py:1656 | BLOCK SHIPMENT iff any CRITICAL, else REVIEW RECOMMENDED iff any HIGH, else PROCEED WITH CAUTION iff any MEDIUM, else CLEAR TO SHIP |
| RiskScorer.UrgencyOfLevelString | server.py:1699-1704 | immediate exactly for `risk_level == "CRITICAL"`, urgent exactly for `"HIGH"` |
| RiskScorer.ActionFor | server.py:1693-1697 | message and agent when present; the action is `recommended_action`, else `recommendation`, else "Review required" |
| RiskScorer.SortActions | server.py:1692-1704 | the append loop builds each list as the actions of the findings of that urgency, in order |
| RiskScorer.GenerateActionPlan | server.py:1675-1729 | the method computes the plan: cleared for no findings, else the three action lists with the status from the CRITICAL and HIGH buckets |
| RiskScorer.ActionPlanPartition | server.py:1692-1704 | every finding goes to exactly one list; the counts sum to the total |
| RiskScorer.ActionPlanStatus | server.py:1675-1714 | CLEARED iff no findings; BLOCKED iff any CRITICAL; REVIEW REQUIRED iff none CRITICAL and some HIGH; else CLEARED WITH CONDITIONS |
| RiskScorer.BucketNonEmptyIff | server.py:1706-1714 | a level's comprehension is non-empty iff some finding is declared at it |
| RiskScorer.PlanAgreesWithPrioritization | server.py:1685-1714 | planning the prioritised list is BLOCKED iff the verdict blocks; its immediate and urgent actions are the CRITICAL and HIGH buckets' |
| HsCodeAgent.LookupHsCodeDatabase | server.py:272-302 | the append loop collects exactly the database entries with a common name occurring in the lower-cased description; no match iff none has one |
| HsCodeAgent.NoHsMatchIff | server.py:276-294 | nothing matches exactly when no entry's common names occur in the lower-cased description |
| HsCodeAgent.HsMatchIff | server.py:276-287 | a code is matched iff it is in the database and one of its common names occurs in the lower-cased description |
| HsCodeAgent.CapitalisedNamesNeverMatch | server.py:278-279 | an entry whose every common name holds a capital is never matched |
| HsCodeAgent.LowerAll | server.py:328 | each keyword is lower-cased, position by position |
| HsCodeAgent.SearchCbpRulings | server.py:325-350 | collects, in file order, exactly the rulings that share a keyword; no rulings iff none does |
| HsCodeAgent.RulingFoundIff | server.py:328-334 | a ruling is found iff a searched keyword equals one of its keywords up to ASCII case |
| HsCodeAgent.SharesKeywordIff | server.py:328-333 | two keyword lists share a lower-cased keyword iff some keyword of each agree up to ASCII case |
| HsCodeAgent.Base | server.py:377-378 | the base is the first 7 characters, or the whole code if shorter |
| HsCodeAgent.DescriptionOf | server.py:380-425 | "Unknown" for a base not in the database; otherwise the entry's description when it has one; any other text comes from the entry |
| HsCodeAgent.CompareHsCodes | server.py:377-428 | exact iff the codes are equal; base match iff the bases are; PASS is LOW with no descriptions, WARNING is MEDIUM, FAIL is CRITICAL; descriptions default to "Unknown" |
| HsCodeAgent.HsVerdicts | server.py:383-428 | PASS iff equal codes; WARNING iff different codes with equal 7-prefixes; FAIL iff different prefixes |
| HsCodeAgent.ExactImpliesBaseMatch | server.py:383-384 | an exact match is a base match |
| HsCodeAgent.CompareHsCodesSymmetric | server.py:383-428 | swapping the codes keeps the verdict |
| HsCodeAgent.SharedPrefixNeverFails | server.py:377-412 | codes agreeing on their first 7 characters never FAIL |
| HsCodeAgent.ShortCodeFailsAgainstLong | server.py:377-428 | a code under 7 characters always FAILs against one of 7 or more |
| ConsistencyAgent.Normalize | server.py:474 | the compared form `str(v).strip().lower()` is already lower-cased: lowering it again changes nothing |
| ConsistencyAgent.ShownOrMissing | server.py:468-469 | a truthy value shows as `str(value)`; "MISSING" appears iff the value is absent or falsy, or its text is "MISSING" |
| ConsistencyAgent.CompareFields | server.py:457-502 | fetch errors come first, and the first document's first; a missing field reports "MISSING"; a compared field is PASS/LOW or FAIL/HIGH by the match |
| ConsistencyAgent.ComparedIff | server.py:458-474 | the field is compared iff both documents exist and both carry it; then it matches iff the stripped, lower-cased values are equal |
| ConsistencyAgent.CompareFieldsSymmetric | server.py:474 | swapping the documents keeps the verdict |
| ConsistencyAgent.CompareFieldsReflexive | server.py:474 | a document agrees with itself on every field it has |
| ConsistencyAgent.LowerStripCommute | server.py:474 | stripping and lower-casing commute |
| ConsistencyAgent.NormalizeIgnoresPaddingAndCase | server.py:474 | a text value compares equal to its stripped, lower-cased form |
| RegulatoryAgent.CheckFccRequirement | server.py:679-704 | FCC is required iff some rule's keyword occurs in the description or its code in the base; the first such rule gives the requirement; REQUIRED/HIGH or NOT REQUIRED/NONE |
| RegulatoryAgent.TargetType | server.py:726-732 | fcc, origin and ul (any case) map to the certificate types; other names are kept |
| RegulatoryAgent.VerifyCertificateValidity | server.py:732-778 | NOT FOUND/CRITICAL iff no certificate of the shipment has the type; else the first one, with its id written in, is VALID/LOW iff its `valid` is truthy, else INVALID/CRITICAL |
| RegulatoryAgent.ValidateCertificateOfOrigin | server.py:957-967 | the same check for type `certificate_of_origin`: NOT FOUND iff the shipment has none; else the first one, with its id written in, judged by its `valid` |
| RegulatoryAgent.LookupImportRestrictions | server.py:797-822 | ALLOWED iff no restricted item's keyword occurs in the description; else the first such item's restriction and penalty |
| RegulatoryAgent.RestrictionsIgnoreOrigin | server.py:784-822 | the origin country never changes the verdict |
| RegulatoryAgent.MoreRestrictionsNeverAllowMore | server.py:801-813 | appending restricted items never changes an existing prohibition |
| OriginAgent.CheckOriginConsistency | server.py:843-888 | no documents iff the shipment has none; a mismatch names at least two distinct origins, lists the documents' origins and sets the conflicting origins to their distinct values |
| OriginAgent.DocumentOrigins | server.py:848-855 | one entry per document with a truthy origin, each origin truthy |
| OriginAgent.DocumentOriginsIff | server.py:848-855 | an entry is listed iff some shipment document with a truthy origin has its id, type and origin |
| OriginAgent.OriginSetIff | server.py:863 | the distinct origins are exactly the hash keys of the origins the documents state |
| OriginAgent.MismatchOriginsIff | server.py:863-880 | a mismatch's conflicting origins are exactly the origins, up to Python equality, that the shipment's documents state |
| OriginAgent.HashKey | server.py:863 | a set keys each origin by itself, except `True`, which it keys as `1` |
| OriginAgent.HashKeyEqualIff | server.py:863 | two origins share a set element iff they are equal or are `True` and `1` |
| OriginAgent.SingleOriginIffAllEqual | server.py:863-864 | one distinct origin iff all origins are equal |
| OriginAgent.NoOriginIff | server.py:848-861 | the "no origin information" error iff no shipment document has a truthy origin |
| OriginAgent.ConsistentIff | server.py:848-873 | consistent iff some origin is stated and all are equal; the report counts exactly the documents with an origin and every one has the reported origin |
| ValueAgent.LookupMarketPrice | server.py:987-1013 | exact non-empty entry first, else the first entry whose lower-cased name contains or is contained in the product's; not found iff that gives no data |
| ValueAgent.PriceDataFor | server.py:988-996 | an exact non-empty entry is used; no entry is found iff there is none and no name overlaps the product's |
| ValueAgent.ExactNameWins | server.py:988-991 | an exact non-empty entry always wins |
| ValueAgent.CaseVariantFound | server.py:988-996 | without a non-empty exact entry, an entry named like the product up to case always yields an entry, itself or an earlier overlapping one |
| ValueAgent.FoundDataOverlaps | server.py:988-996 | without a non-empty exact entry, the data come from the first entry whose name overlaps the product's |
| RouteAgent.RoutingOf | server.py:1168 | a list-valued `routing` is used as it is; anything else reads as no ports |
| RouteAgent.VesselFor | server.py:1171-1173 | an error iff the vessel name is a list; schedule data iff the name is text with a non-empty schedule, and then its regular routes |
| RouteAgent.ScanRoutes | server.py:1183-1192 | the loop yields "some route serves the ports" and "some serving route is direct", or the TypeError of a non-text port |
| RouteAgent.TransshipmentPoints | server.py:1216 | `routing[1:-1]`: the inner ports, empty for fewer than two |
| RouteAgent.ValidateShippingRoute | server.py:1160-1232 | the method computes the rule: fetch error, not a bill of lading, unknown vessel, scan error, or the route verdict |
| RouteAgent.RouteVerdicts | server.py:1194-1232 | VALID iff a route matches and the routing has 2 ports; SUSPICIOUS iff a direct matching route exists and the routing is not 2 ports; UNUSUAL otherwise |
| RouteAgent.NoRoutesIsUnusual | server.py:1183-1232 | a vessel with no regular routes gives UNUSUAL |
| RouteAgent.TransshipmentNeedsDirectService | server.py:1187-1216 | a SUSPICIOUS verdict always has a direct regular route between the ports, and HIGH risk |
| RouteAgent.ExpectedPorts | server.py:1272-1279 | a city always expects its own port; a city outside the table expects only it |
| RouteAgent.InvoiceCity | server.py:1256-1259 | an invoice names a city iff its address is text holding a comma; the city is the stripped text before the first comma |
| RouteAgent.FindSupplierCity | server.py:1254-1259 | the first pass yields the city of the last invoice whose address holds a comma |
| RouteAgent.FindOriginPort | server.py:1261-1264 | the second pass yields the origin port of the last bill of lading |
| RouteAgent.CheckPortConsistency | server.py:1249-1305 | the method computes the rule from the two passes and the port table |
| RouteAgent.HomePortIsConsistent | server.py:1272-1280 | a port named like the supplier city is always consistent |
| RouteAgent.PortVerdicts | server.py:1266-1280 | consistent iff city and port are present and the port is among the city's expected ports |
| RouteAgent.CrossCityPorts | server.py:1272-1279 | a port named after another city is expected exactly for the pairs the table lists: Shenzhen with Hong Kong or Guangzhou, Beijing with Tianjin, Guangzhou with Shenzhen or Hong Kong |
| RouteAgent.MutualPortsIff | server.py:1272-1279 | two different cities accept each other's port only for Shenzhen and Guangzhou; Beijing may use Tianjin but not the reverse |
| SupplierAgent.IdentifyCommonIssues | server.py:1455-1485 | no history iff absent or empty; the ranked issues are a permutation, non-increasing by occurrences; the top issue is the first ranked issue, an input issue with maximal occurrences |
| SupplierAgent.TopIsFirstMaximal | server.py:1475-1483 | the top issue is the earliest issue in the file among those with the most occurrences |
| SupplierAgent.TopIsMaximal | server.py:1475-1482 | the head of the ranking bounds every issue's occurrences |
| SupplierAgent.TiesKeepFileOrder | server.py:1475 | issues with equal occurrences keep their file order |

## Left out

- Reading the JSON files (`load_json`) is not modelled: the data are parameters. The missing-file and bad-JSON cases, which read as `{}`, are the empty table or map.
- JSON floats, `null` and nested objects used as field values are not modelled. `Value` has text, integers, booleans and lists of text.
- The DeepL tools (`translate_document_field`, `compare_translated_descriptions`, `translate_full_document`) are not modelled. They are calls to a foreign API.
- The floating-point rules are not modelled: `calculate_quantity_variance`, `check_value_consistency`, `calculate_per_unit_price`, `check_historical_pricing`, `estimate_delay_cost` and `calculate_hold_rate`.
- `verify_supplier_location`, `verify_vessel_schedule` and `query_past_shipments` are not part of this model.
- MCP tool registration, `mcp.run`, the startup prints, and `test_airia.py` / `setup_airia.py` are not modelled. They are I/O only.
- The generic `except Exception` wrappers are modelled only for exceptions the modelled data can raise:
  - the not-found `ValueError` of `fetch_document`;
  - a non-text port in the route scan;
  - a list-valued vessel name or origin, which cannot be hashed.
- The human-readable `message`, `recommendation`, `impact` and `decision` texts are not modelled. Neither is the `found`/`success` flag that each outcome's datatype constructor already implies.
- The session and fan-out orchestration around the agents is not in `server.py` and is not part of this model.
- Text.Lower: models `str.lower()` for ASCII letters only. Other characters are kept unchanged, so non-ASCII case folding is not captured.
- Documents.Display: writes a list as Python's `repr` does, without escaping quotes inside its items.
- RouteAgent.RoutingOf: reads a `routing` that is not a list as the empty list. `server.py` would take `len` of whatever it holds.
- RouteAgent.InvoiceCity: reads a `supplier_address` that is not text as `""`, so such an invoice names no city. For a list without a `","` item `server.py` does the same. For an integer or a boolean it raises `TypeError` at the `","` test, and for a list holding a `","` item it raises `AttributeError` at `.split`; the model does not report either error.
- RegulatoryAgent.VerifyCertificateValidity: returns the certificate with `cert_id` written in, rather than writing into the loaded table. The table `server.py` loads is re-read on every call, so its in-place write is not observable.
- CompareHsCodes's PASS outcome carries `baseMatch = true`, where `server.py` omits the `base_match` key.
