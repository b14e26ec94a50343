/** The origin validator: `check_origin_consistency` asks whether every
    document of a shipment that states a country of origin states the same
    one. */
module OriginAgent {
  import opened Wrappers
  import opened Seqs
  import opened Documents

  /** One document's stated origin, as the report lists it. */
  datatype DocumentOrigin = DocumentOrigin(docId: string, docType: Option<Value>, origin: Value)

  /** A document states an origin when its `origin_country` is truthy. */
  function HasOrigin(): ((string, Record)) -> bool {
    (e: (string, Record)) => Truthy(Get(e.1, "origin_country"))
  }

  function OriginEntry(e: (string, Record)): DocumentOrigin {
    DocumentOrigin(e.0, Get(e.1, "type"), Get(e.1, "origin_country").GetOr(Str("")))
  }

  /** The documents that state an origin, in document order. */
  function DocumentOrigins(shipmentDocs: Table<Record>): (os: seq<DocumentOrigin>)
    ensures |os| == |Filter(shipmentDocs, HasOrigin())|
    ensures forall i :: 0 <= i < |os| ==> Truthy(Some(os[i].origin))
  {
    MapSeq(Filter(shipmentDocs, HasOrigin()), OriginEntry)
  }

  /** The value a Python set keys an origin by: `True` equals `1`, so both
      land in one set element. (`False` and `0` are falsy and never get
      this far.) */
  function HashKey(v: Value): (k: Value)
    ensures k == v || (v == Bool(true) && k == Int(1))
    ensures k != Bool(true)
  {
    if v == Bool(true) then Int(1) else v
  }

  /** Two origins share a set element exactly when Python calls them
      equal: when they are the same value, or are `True` and `1`. */
  lemma HashKeyEqualIff(a: Value, b: Value)
    ensures HashKey(a) == HashKey(b) <==> a == b || (a == Bool(true) && b == Int(1)) || (a == Int(1) && b == Bool(true))
  {
  }

  /** `set(o["origin"] for o in origins.values())`, up to Python equality. */
  function OriginSet(os: seq<DocumentOrigin>): set<Value> {
    set i | 0 <= i < |os| :: HashKey(os[i].origin)
  }

  /** The answer of `check_origin_consistency`. A list-valued origin cannot
      be put in a set, so Python raises and the rule reports an error. */
  datatype OriginCheck =
    | NoDocuments(shipmentId: string)
    | NoOriginInformation
    | UnhashableOrigin
    | OriginConsistent(origin: Value, documentsChecked: nat)
    | OriginMismatch(conflictingOrigins: set<Value>, documentOrigins: seq<DocumentOrigin>)

  predicate AnyListOrigin(os: seq<DocumentOrigin>) {
    exists i :: 0 <= i < |os| && os[i].origin.StrList?
  }

  /** `check_origin_consistency`. */
  function CheckOriginConsistency(docs: Table<Record>, shipmentId: string): (r: OriginCheck)
    ensures r.NoDocuments? <==> ShipmentDocuments(docs, shipmentId) == []
    ensures r.OriginMismatch? ==> |r.conflictingOrigins| >= 2
    ensures r.OriginMismatch? ==> r.documentOrigins == DocumentOrigins(ShipmentDocuments(docs, shipmentId))
    ensures r.OriginMismatch? ==> r.conflictingOrigins == OriginSet(r.documentOrigins)
  {
    var shipmentDocs := ShipmentDocuments(docs, shipmentId);
    if shipmentDocs == [] then NoDocuments(shipmentId)
    else
      var origins := DocumentOrigins(shipmentDocs);
      if origins == [] then NoOriginInformation
      else if AnyListOrigin(origins) then UnhashableOrigin
      else
        var unique := OriginSet(origins);
        assert HashKey(origins[0].origin) in unique;
        if |unique| == 1 then OriginConsistent(origins[0].origin, |origins|)
        else OriginMismatch(unique, origins)
  }

  /** A non-empty list of origins has one distinct origin exactly when all
      of them are equal (as Python compares them). */
  lemma SingleOriginIffAllEqual(os: seq<DocumentOrigin>)
    requires os != []
    ensures |OriginSet(os)| == 1 <==> forall i :: 0 <= i < |os| ==> HashKey(os[i].origin) == HashKey(os[0].origin)
  {
    var k := HashKey(os[0].origin);
    assert k in OriginSet(os);
    if forall i :: 0 <= i < |os| ==> HashKey(os[i].origin) == k {
      assert OriginSet(os) == {k};
    } else {
      var i :| 0 <= i < |os| && HashKey(os[i].origin) != k;
      assert HashKey(os[i].origin) in OriginSet(os) - {k};
      assert |OriginSet(os) - {k}| == |OriginSet(os)| - 1;
    }
  }

  /** When no document of the shipment states an origin, the rule says so. */
  lemma NoOriginIff(docs: Table<Record>, shipmentId: string)
    requires ShipmentDocuments(docs, shipmentId) != []
    ensures CheckOriginConsistency(docs, shipmentId).NoOriginInformation?
        <==> forall i :: 0 <= i < |ShipmentDocuments(docs, shipmentId)|
               ==> !Truthy(Get(ShipmentDocuments(docs, shipmentId)[i].1, "origin_country"))
  {
    var sd := ShipmentDocuments(docs, shipmentId);
    var f := Filter(sd, HasOrigin());
    if f != [] {
      FilterMember(sd, HasOrigin(), f[0]);
      assert f[0] in sd && HasOrigin()(f[0]);
    }
  }

  /** The origins are consistent exactly when the shipment has documents
      stating an origin, none of them a list, and all of them equal; the
      report then counts those documents and names their common origin. */
  lemma ConsistentIff(docs: Table<Record>, shipmentId: string)
    ensures var os := DocumentOrigins(ShipmentDocuments(docs, shipmentId));
            CheckOriginConsistency(docs, shipmentId).OriginConsistent? <==>
              && os != [] && !AnyListOrigin(os)
              && forall i, j :: 0 <= i < |os| && 0 <= j < |os| ==> HashKey(os[i].origin) == HashKey(os[j].origin)
    ensures var r := CheckOriginConsistency(docs, shipmentId);
            r.OriginConsistent? ==>
              && r.documentsChecked == |Filter(ShipmentDocuments(docs, shipmentId), HasOrigin())|
              && forall e :: e in ShipmentDocuments(docs, shipmentId) && HasOrigin()(e)
                   ==> HashKey(Get(e.1, "origin_country").value) == HashKey(r.origin)
  {
    var sd := ShipmentDocuments(docs, shipmentId);
    var os := DocumentOrigins(sd);
    if sd != [] && os != [] && !AnyListOrigin(os) {
      SingleOriginIffAllEqual(os);
      var f := Filter(sd, HasOrigin());
      if |OriginSet(os)| == 1 {
        forall e | e in sd && HasOrigin()(e)
          ensures HashKey(Get(e.1, "origin_country").value) == HashKey(os[0].origin)
        {
          FilterMember(sd, HasOrigin(), e);
          var i :| 0 <= i < |f| && f[i] == e;
          assert os[i] == OriginEntry(e);
        }
      }
    }
  }

  /** The report lists a document exactly when it states an origin, with
      its id, its type and that origin. */
  lemma DocumentOriginsIff(shipmentDocs: Table<Record>, d: DocumentOrigin)
    ensures d in DocumentOrigins(shipmentDocs) <==>
              exists e :: e in shipmentDocs && Truthy(Get(e.1, "origin_country"))
                          && d.docId == e.0 && d.docType == Get(e.1, "type")
                          && Get(e.1, "origin_country") == Some(d.origin)
  {
    var f := Filter(shipmentDocs, HasOrigin());
    var os := DocumentOrigins(shipmentDocs);
    if d in os {
      var i :| 0 <= i < |os| && os[i] == d;
      FilterMember(shipmentDocs, HasOrigin(), f[i]);
      assert f[i] in shipmentDocs && HasOrigin()(f[i]);
      assert d == OriginEntry(f[i]);
    }
    if exists e :: e in shipmentDocs && Truthy(Get(e.1, "origin_country"))
                   && d.docId == e.0 && d.docType == Get(e.1, "type")
                   && Get(e.1, "origin_country") == Some(d.origin) {
      var e :| e in shipmentDocs && Truthy(Get(e.1, "origin_country"))
               && d.docId == e.0 && d.docType == Get(e.1, "type")
               && Get(e.1, "origin_country") == Some(d.origin);
      FilterMember(shipmentDocs, HasOrigin(), e);
      var j :| 0 <= j < |f| && f[j] == e;
      assert os[j] == OriginEntry(e) == d;
    }
  }

  /** The distinct origins of the documents that state one are exactly
      the hash keys of those documents' origins. */
  lemma OriginSetIff(sd: Table<Record>, k: Value)
    ensures k in OriginSet(DocumentOrigins(sd)) <==>
              exists e :: e in sd && Truthy(Get(e.1, "origin_country"))
                          && k == HashKey(Get(e.1, "origin_country").value)
  {
    var os := DocumentOrigins(sd);
    if k in OriginSet(os) {
      var i :| 0 <= i < |os| && HashKey(os[i].origin) == k;
      DocumentOriginsIff(sd, os[i]);
    }
    if exists e :: e in sd && Truthy(Get(e.1, "origin_country")) && k == HashKey(Get(e.1, "origin_country").value) {
      var e :| e in sd && Truthy(Get(e.1, "origin_country")) && k == HashKey(Get(e.1, "origin_country").value);
      DocumentOriginsIff(sd, OriginEntry(e));
      var i :| 0 <= i < |os| && os[i] == OriginEntry(e);
      assert HashKey(os[i].origin) == k;
    }
  }

  /** A mismatch names as conflicting exactly the origins, up to Python
      equality, that the shipment's documents state, and lists every
      document that states one. */
  lemma MismatchOriginsIff(docs: Table<Record>, shipmentId: string, k: Value)
    requires CheckOriginConsistency(docs, shipmentId).OriginMismatch?
    ensures k in CheckOriginConsistency(docs, shipmentId).conflictingOrigins <==>
              exists e :: e in ShipmentDocuments(docs, shipmentId) && Truthy(Get(e.1, "origin_country"))
                          && k == HashKey(Get(e.1, "origin_country").value)
  {
    OriginSetIff(ShipmentDocuments(docs, shipmentId), k);
  }
}
