/** The JSON data the rule engine reads: trade documents and the reference
    tables. A JSON object is a `Record` (field name to value); a JSON object
    of objects that the engine iterates is a `Table`, an ordered list of
    (key, entry) pairs in the object's order, since Python dictionaries keep
    insertion order and several rules take the first or the last match. */
module Documents {
  import opened Wrappers
  import opened Seqs
  import Text

  /** A JSON field value as the documents use them. */
  datatype Value = Str(s: string) | Int(i: int) | Bool(b: bool) | StrList(items: seq<string>)

  type Record = map<string, Value>

  /** A JSON object of keyed entries, in file order. The keys of a JSON
      object are distinct (`DistinctKeys`). */
  type Table<R> = seq<(string, R)>

  ghost predicate DistinctKeys<R>(t: Table<R>) {
    forall i, j :: 0 <= i < j < |t| ==> t[i].0 != t[j].0
  }

  /** `record.get(key)`. */
  function Get(r: Record, key: string): (v: Option<Value>)
    ensures v.Some? <==> key in r
    ensures v.Some? ==> v.value == r[key]
  {
    if key in r then Some(r[key]) else None
  }

  /** `record.get(key)` where the rule goes on to use the value as text. */
  function GetText(r: Record, key: string): Option<string> {
    match Get(r, key)
    case Some(Str(s)) => Some(s)
    case _ => None
  }

  /** Python truthiness of an optional field value (`None` is false). */
  predicate Truthy(v: Option<Value>)
    ensures !Truthy(v) <==> v == None || v == Some(Str("")) || v == Some(Int(0)) || v == Some(Bool(false)) || v == Some(StrList([]))
  {
    match v
    case None => false
    case Some(Str(s)) => s != ""
    case Some(Int(i)) => i != 0
    case Some(Bool(b)) => b
    case Some(StrList(xs)) => xs != []
  }

  /** `str(value)`. */
  function Display(v: Value): (r: string)
    ensures v.Str? ==> r == v.s
    ensures v.Int? ==> r == Text.Decimal(v.i)
    ensures v.Bool? ==> (r == "True" <==> v.b) && (r == "False" <==> !v.b)
    ensures v.StrList? ==> |r| >= 2 && r[0] == '[' && r[|r| - 1] == ']'
  {
    match v
    case Str(s) => s
    case Int(i) => Text.Decimal(i)
    case Bool(b) => if b then "True" else "False"
    case StrList(xs) => "[" + QuotedList(xs) + "]"
  }

  /** An integer shows exactly as the digit text that denotes it, so an
      integer field and a text field holding its digits display alike. */
  lemma DisplayIntCanonical(t: string)
    requires t != [] && Text.AllDigits(t) && (t[0] == '0' ==> |t| == 1)
    ensures Display(Int(Text.DigitsValue(t))) == Display(Str(t))
  {
    Text.CanonicalDigits(t);
  }

  /** The items of a list of strings as Python's `repr` writes them,
      separated by ", ". */
  function QuotedList(xs: seq<string>): string {
    if xs == [] then ""
    else if |xs| == 1 then "'" + xs[0] + "'"
    else "'" + xs[0] + "', " + QuotedList(xs[1..])
  }

  /** The keys of a table in order (`dict.keys()`). */
  function Keys<R>(t: Table<R>): (ks: seq<string>)
    ensures |ks| == |t|
    ensures forall i :: 0 <= i < |t| ==> ks[i] == t[i].0
  {
    MapSeq(t, (e: (string, R)) => e.0)
  }

  /** `table.get(key)`: the entry of the first pair with that key. */
  function Lookup<R>(t: Table<R>, key: string): (r: Option<R>)
    ensures r.None? <==> forall i :: 0 <= i < |t| ==> t[i].0 != key
    ensures r.Some? ==> exists i :: 0 <= i < |t| && t[i] == (key, r.value)
  {
    if t == [] then None
    else if t[0].0 == key then Some(t[0].1)
    else Lookup(t[1..], key)
  }

  /** In a table with distinct keys, lookup finds exactly the paired entry. */
  lemma {:induction false} LookupExact<R>(t: Table<R>, key: string, v: R)
    requires DistinctKeys(t)
    ensures Lookup(t, key) == Some(v) <==> (key, v) in t
  {
    if t != [] {
      assert DistinctKeys(t[1..]) by {
        forall i, j | 0 <= i < j < |t[1..]| ensures t[1..][i].0 != t[1..][j].0 {
          assert t[1..][i] == t[i + 1] && t[1..][j] == t[j + 1];
        }
      }
      LookupExact(t[1..], key, v);
      if t[0].0 == key {
        forall i | 1 <= i < |t| ensures t[i] != (key, v) {
          assert t[0].0 != t[i].0;
        }
        assert (key, v) in t ==> t[0] == (key, v) by {
          if (key, v) in t {
            var i :| 0 <= i < |t| && t[i] == (key, v);
            assert i == 0;
          }
        }
      } else {
        assert (key, v) in t <==> (key, v) in t[1..] by {
          assert t == [t[0]] + t[1..];
        }
      }
    }
  }

  /** Why `fetch_document` raised: no such document, listing the ids it has. */
  datatype DocumentError = DocumentNotFound(id: string, available: seq<string>)

  /** `fetch_document`: the document with that id; a missing document and an
      empty one (an empty JSON object is falsy) are both "not found". */
  function FetchDocument(docs: Table<Record>, id: string): (r: Result<Record, DocumentError>)
    ensures r.Success? <==> Lookup(docs, id).Some? && Lookup(docs, id).value != map[]
    ensures r.Success? ==> r.value == Lookup(docs, id).value
    ensures r.Failure? ==> r.error == DocumentNotFound(id, Keys(docs))
  {
    match Lookup(docs, id)
    case Some(doc) => if doc == map[] then Failure(DocumentNotFound(id, Keys(docs))) else Success(doc)
    case None => Failure(DocumentNotFound(id, Keys(docs)))
  }

  /** The test `doc.get("shipment_id") == shipment_id`. */
  function BelongsTo(shipmentId: string): ((string, Record)) -> bool {
    (e: (string, Record)) => Get(e.1, "shipment_id") == Some(Str(shipmentId))
  }

  /** `get_shipment_documents`: the documents of one shipment, in order. */
  function ShipmentDocuments(docs: Table<Record>, shipmentId: string): (r: Table<Record>)
    ensures forall i :: 0 <= i < |r| ==> Get(r[i].1, "shipment_id") == Some(Str(shipmentId))
    ensures forall i :: 0 <= i < |docs| && Get(docs[i].1, "shipment_id") == Some(Str(shipmentId)) ==> docs[i] in r
  {
    Filter(docs, BelongsTo(shipmentId))
  }

  /** A document is one of the shipment's exactly when it is in the table
      and carries the shipment's id. */
  lemma ShipmentDocumentsMember(docs: Table<Record>, shipmentId: string, e: (string, Record))
    ensures e in ShipmentDocuments(docs, shipmentId) <==> e in docs && Get(e.1, "shipment_id") == Some(Str(shipmentId))
  {
    FilterMember(docs, BelongsTo(shipmentId), e);
  }

  /** The test `doc.get("type") == kind`. */
  predicate HasType(doc: Record, kind: string) {
    Get(doc, "type") == Some(Str(kind))
  }
}
