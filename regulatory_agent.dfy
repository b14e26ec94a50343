/** The regulatory agent: whether a product needs FCC certification, whether
    a shipment carries a valid certificate of a given kind, and whether a
    product is on the import restriction list. */
module RegulatoryAgent {
  import opened Wrappers
  import opened Seqs
  import opened Text
  import opened Documents
  import opened Levels
  import HsCodeAgent

  /** One entry of the FCC `applies_to` list. Absent lists read as empty. */
  datatype FccRule = FccRule(productKeywords: seq<string>, hsCodes: seq<string>, requirement: Option<string>)

  /** A rule applies when one of its keywords occurs in the lower-cased
      description or one of its codes occurs in the base of the HS code. */
  predicate RuleApplies(rule: FccRule, productLower: string, hsBase: string) {
    AnyIn(rule.productKeywords, productLower) || AnyIn(rule.hsCodes, hsBase)
  }

  function AppliesTo(productLower: string, hsBase: string): FccRule -> bool {
    (rule: FccRule) => RuleApplies(rule, productLower, hsBase)
  }

  /** The index of the rule that decides, if any applies. */
  function DecidingRule(rules: seq<FccRule>, productDescription: string, hsCode: string): Option<nat> {
    FirstMatch(rules, AppliesTo(Lower(productDescription), HsCodeAgent.Base(hsCode)))
  }

  datatype FccStatus = Required | NotRequired

  /** The answer of `check_fcc_requirement`; `risk` is `None` for the
      "NONE" level that `check_fcc_requirement` reports. */
  datatype FccCheck = FccCheck(
    productDescription: string,
    hsCode: string,
    requiresFcc: bool,
    requirement: Option<string>,
    status: FccStatus,
    risk: Option<Level>)

  /** `check_fcc_requirement`: scans the rules in order and stops at the
      first one that applies, reporting its requirement. */
  method CheckFccRequirement(rules: seq<FccRule>, productDescription: string, hsCode: string) returns (r: FccCheck)
    ensures r.requiresFcc <==> exists i :: 0 <= i < |rules| && RuleApplies(rules[i], Lower(productDescription), HsCodeAgent.Base(hsCode))
    ensures r.requiresFcc ==> r.requirement == rules[DecidingRule(rules, productDescription, hsCode).value].requirement
    ensures !r.requiresFcc ==> r.requirement == Some("No FCC certification required")
    ensures r.status == (if r.requiresFcc then Required else NotRequired)
    ensures r.risk == (if r.requiresFcc then Some(High) else None)
    ensures r.productDescription == productDescription && r.hsCode == hsCode
  {
    var productLower := Lower(productDescription);
    var hsBase := HsCodeAgent.Base(hsCode);
    var requiresFcc := false;
    var reason: Option<string> := None;
    ghost var decided := 0;
    for i := 0 to |rules|
      invariant forall j :: 0 <= j < i ==> !RuleApplies(rules[j], productLower, hsBase)
      invariant !requiresFcc
    {
      var keywordMatch := AnyIn(rules[i].productKeywords, productLower);
      var codeMatch := AnyIn(rules[i].hsCodes, hsBase);
      if keywordMatch || codeMatch {
        requiresFcc := true;
        reason := rules[i].requirement;
        decided := i;
        break;
      }
    }
    ghost var d := DecidingRule(rules, productDescription, hsCode);
    if requiresFcc {
      assert d.Some? && d.value == decided;
    }
    r := FccCheck(productDescription, hsCode, requiresFcc,
      if requiresFcc then reason else Some("No FCC certification required"),
      if requiresFcc then Required else NotRequired,
      if requiresFcc then Some(High) else None);
  }

  /** The certificate kinds callers name, mapped to the `type` the
      certificate file uses; other names are used as given. */
  function TargetType(certType: string): (t: string)
    ensures Lower(certType) == "fcc" ==> t == "fcc_certification"
    ensures Lower(certType) == "origin" ==> t == "certificate_of_origin"
    ensures Lower(certType) == "ul" ==> t == "ul_certification"
    ensures Lower(certType) !in {"fcc", "origin", "ul"} ==> t == certType
  {
    var l := Lower(certType);
    if l == "fcc" then "fcc_certification"
    else if l == "origin" then "certificate_of_origin"
    else if l == "ul" then "ul_certification"
    else certType
  }

  predicate IsCertFor(cert: Record, shipmentId: string, targetType: string) {
    Get(cert, "shipment_id") == Some(Str(shipmentId)) && Get(cert, "type") == Some(Str(targetType))
  }

  function CertFor(shipmentId: string, targetType: string): ((string, Record)) -> bool {
    (e: (string, Record)) => IsCertFor(e.1, shipmentId, targetType)
  }

  /** The position of the certificate the search settles on. */
  function FoundCertificate(certs: Table<Record>, shipmentId: string, certType: string): Option<nat> {
    FirstMatch(certs, CertFor(shipmentId, TargetType(certType)))
  }

  /** The certificate as reported: its record with its id written in. */
  function WithId(e: (string, Record)): Record {
    e.1["cert_id" := Str(e.0)]
  }

  datatype CertStatus = NotFound | Valid | Invalid

  datatype CertificateCheck = CertificateCheck(status: CertStatus, risk: Level, certificate: Option<Record>)

  /** `verify_certificate_validity`: the first certificate of the shipment
      with the wanted type, with its id written into it, judged by its
      `valid` field (absent is false). */
  method VerifyCertificateValidity(certs: Table<Record>, shipmentId: string, certType: string) returns (r: CertificateCheck)
    ensures r.status == NotFound <==> forall i :: 0 <= i < |certs| ==> !IsCertFor(certs[i].1, shipmentId, TargetType(certType))
    ensures r.status == NotFound ==> r.certificate.None?
    ensures r.status != NotFound ==>
              && FoundCertificate(certs, shipmentId, certType).Some?
              && var e := certs[FoundCertificate(certs, shipmentId, certType).value];
                 && r.certificate == Some(WithId(e))
                 && (r.status == Valid <==> Truthy(Get(e.1, "valid")))
    ensures r.risk == (if r.status == Valid then Low else Critical)
  {
    var targetType := TargetType(certType);
    var foundCert: Option<Record> := None;
    ghost var at := 0;
    for i := 0 to |certs|
      invariant forall j :: 0 <= j < i ==> !IsCertFor(certs[j].1, shipmentId, targetType)
      invariant foundCert.None?
    {
      var (certId, cert) := certs[i];
      if Get(cert, "shipment_id") == Some(Str(shipmentId)) && Get(cert, "type") == Some(Str(targetType)) {
        foundCert := Some(cert["cert_id" := Str(certId)]);
        at := i;
        break;
      }
    }
    if foundCert.None? {
      r := CertificateCheck(NotFound, Critical, None);
    } else {
      assert FoundCertificate(certs, shipmentId, certType) == Some(at);
      var isValid := Truthy(Get(foundCert.value, "valid"));
      if isValid {
        r := CertificateCheck(Valid, Low, foundCert);
      } else {
        r := CertificateCheck(Invalid, Critical, foundCert);
      }
    }
  }

  /** `validate_certificate_of_origin`: the certificate check for the
      "origin" kind, that is for type `certificate_of_origin`. */
  method ValidateCertificateOfOrigin(certs: Table<Record>, shipmentId: string) returns (r: CertificateCheck)
    ensures r.status == NotFound <==> forall i :: 0 <= i < |certs| ==> !IsCertFor(certs[i].1, shipmentId, "certificate_of_origin")
    ensures r.status == NotFound ==> r.certificate.None?
    ensures r.status != NotFound ==>
              && FoundCertificate(certs, shipmentId, "origin").Some?
              && var e := certs[FoundCertificate(certs, shipmentId, "origin").value];
                 && IsCertFor(e.1, shipmentId, "certificate_of_origin")
                 && r.certificate == Some(WithId(e))
                 && (r.status == Valid <==> Truthy(Get(e.1, "valid")))
    ensures r.risk == (if r.status == Valid then Low else Critical)
  {
    assert Lower("origin") == "origin";
    r := VerifyCertificateValidity(certs, shipmentId, "origin");
  }

  /** One entry of the restricted item list. */
  datatype Restriction = Restriction(keywords: seq<string>, restriction: Option<string>, penalty: Option<string>)

  function RestrictsProduct(productLower: string): Restriction -> bool {
    (x: Restriction) => AnyIn(x.keywords, productLower)
  }

  datatype RestrictionCheck =
    | Prohibited(restrictionType: Option<string>, penalty: Option<string>)
    | Allowed
  {
    function Risk(): Level {
      if Prohibited? then Critical else Low
    }
  }

  /** `lookup_import_restrictions`: the first restricted item one of whose
      keywords occurs in the lower-cased description decides; the origin
      country is not consulted. */
  function LookupImportRestrictions(restrictions: seq<Restriction>, productDescription: string, originCountry: string): (r: RestrictionCheck)
    ensures r.Allowed? <==> forall i :: 0 <= i < |restrictions| ==> !AnyIn(restrictions[i].keywords, Lower(productDescription))
    ensures r.Prohibited? ==> exists i :: (
              && 0 <= i < |restrictions| && AnyIn(restrictions[i].keywords, Lower(productDescription))
              && (forall j :: 0 <= j < i ==> !AnyIn(restrictions[j].keywords, Lower(productDescription)))
              && r == Prohibited(restrictions[i].restriction, restrictions[i].penalty))
  {
    match FirstMatch(restrictions, RestrictsProduct(Lower(productDescription)))
    case Some(i) => Prohibited(restrictions[i].restriction, restrictions[i].penalty)
    case None => Allowed
  }

  /** The origin country never changes the verdict. */
  lemma RestrictionsIgnoreOrigin(restrictions: seq<Restriction>, productDescription: string, a: string, b: string)
    ensures LookupImportRestrictions(restrictions, productDescription, a) == LookupImportRestrictions(restrictions, productDescription, b)
  {
  }

  /** Adding restrictions after the list can only turn "allowed" into
      "prohibited", never the reverse, and never changes a prohibition. */
  lemma MoreRestrictionsNeverAllowMore(restrictions: seq<Restriction>, more: seq<Restriction>, productDescription: string, origin: string)
    requires LookupImportRestrictions(restrictions, productDescription, origin).Prohibited?
    ensures LookupImportRestrictions(restrictions + more, productDescription, origin)
         == LookupImportRestrictions(restrictions, productDescription, origin)
  {
    var s, t := restrictions, restrictions + more;
    var p := RestrictsProduct(Lower(productDescription));
    var i := FirstMatch(s, p).value;
    assert t[i] == s[i];
    assert forall j :: 0 <= j < i ==> t[j] == s[j];
    FirstMatchPrefix(t, i, p);
  }

  /** A search whose hit at `i` is preceded by misses finds `i`. */
  lemma FirstMatchPrefix<T>(s: seq<T>, i: nat, p: T -> bool)
    requires i < |s| && p(s[i]) && forall j :: 0 <= j < i ==> !p(s[j])
    ensures FirstMatch(s, p) == Some(i)
  {
  }
}
