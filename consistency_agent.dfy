/** The document consistency agent: `compare_fields` cross-checks one field
    between two documents, ignoring surrounding whitespace and ASCII case. */
module ConsistencyAgent {
  import opened Wrappers
  import opened Text
  import opened Documents
  import opened Levels

  /** `str(value).strip().lower()`: the form in which values are compared. */
  function Normalize(v: Value): (r: string)
    ensures Lower(r) == r
  {
    LowerIdempotent(Strip(Display(v)));
    Lower(Strip(Display(v)))
  }

  /** The value as the error reports it: `str(value)`, or "MISSING" when it
      is absent or falsy. */
  function ShownOrMissing(v: Option<Value>): (r: string)
    ensures Truthy(v) ==> r == Display(v.value)
    ensures r == "MISSING" <==> !Truthy(v) || Display(v.value) == "MISSING"
  {
    if Truthy(v) then Display(v.value) else "MISSING"
  }

  datatype FieldStatus = FieldPass | FieldFail

  /** The answer of `compare_fields`. */
  datatype FieldComparison =
    | FetchFailed(error: DocumentError)
    | FieldMissing(field: string, doc1Value: string, doc2Value: string)
    | Compared(
        field: string,
        doc1Id: string, doc1Type: Option<Value>, doc1Value: string,
        doc2Id: string, doc2Type: Option<Value>, doc2Value: string,
        matched: bool, status: FieldStatus, risk: Level)
  {
    /** The `match` flag every outcome carries. */
    predicate Matched() {
      Compared? && matched
    }
  }

  /** `compare_fields`. The first document is fetched first, so when both
      are missing the error names the first. */
  function CompareFields(docs: Table<Record>, doc1: string, doc2: string, field: string): (r: FieldComparison)
    ensures r.FetchFailed? <==> FetchDocument(docs, doc1).Failure? || FetchDocument(docs, doc2).Failure?
    ensures r.FetchFailed? ==> r.error == if FetchDocument(docs, doc1).Failure? then FetchDocument(docs, doc1).error else FetchDocument(docs, doc2).error
    ensures r.FieldMissing? ==> r.doc1Value == ShownOrMissing(Get(FetchDocument(docs, doc1).value, field))
                                && r.doc2Value == ShownOrMissing(Get(FetchDocument(docs, doc2).value, field))
    ensures r.Compared? ==> r.status == (if r.matched then FieldPass else FieldFail) && r.risk == (if r.matched then Low else High)
  {
    match FetchDocument(docs, doc1)
    case Failure(e) => FetchFailed(e)
    case Success(d1) =>
      match FetchDocument(docs, doc2)
      case Failure(e) => FetchFailed(e)
      case Success(d2) =>
        var v1, v2 := Get(d1, field), Get(d2, field);
        if v1.None? || v2.None? then FieldMissing(field, ShownOrMissing(v1), ShownOrMissing(v2))
        else
          var matched := Normalize(v1.value) == Normalize(v2.value);
          Compared(field, doc1, Get(d1, "type"), Display(v1.value), doc2, Get(d2, "type"), Display(v2.value),
            matched, if matched then FieldPass else FieldFail, if matched then Low else High)
  }

  /** The field is compared exactly when both documents exist and both
      carry it, and then the verdict is equality after normalising. */
  lemma ComparedIff(docs: Table<Record>, doc1: string, doc2: string, field: string)
    ensures CompareFields(docs, doc1, doc2, field).Compared?
        <==> && FetchDocument(docs, doc1).Success? && FetchDocument(docs, doc2).Success?
             && field in FetchDocument(docs, doc1).value && field in FetchDocument(docs, doc2).value
    ensures CompareFields(docs, doc1, doc2, field).Compared? ==>
              var d1, d2 := FetchDocument(docs, doc1).value, FetchDocument(docs, doc2).value;
              CompareFields(docs, doc1, doc2, field).matched <==> Normalize(d1[field]) == Normalize(d2[field])
  {
    var r := CompareFields(docs, doc1, doc2, field);
    if FetchDocument(docs, doc1).Success? && FetchDocument(docs, doc2).Success? {
      var d1, d2 := FetchDocument(docs, doc1).value, FetchDocument(docs, doc2).value;
      if field in d1 && field in d2 {
        assert Get(d1, field) == Some(d1[field]) && Get(d2, field) == Some(d2[field]);
        assert r.Compared? && (r.matched <==> Normalize(d1[field]) == Normalize(d2[field]));
      } else {
        assert Get(d1, field).None? || Get(d2, field).None?;
        assert r.FieldMissing?;
      }
    }
  }

  /** Swapping the documents never changes whether they are compared, nor
      the verdict. */
  lemma CompareFieldsSymmetric(docs: Table<Record>, doc1: string, doc2: string, field: string)
    ensures CompareFields(docs, doc1, doc2, field).Compared? <==> CompareFields(docs, doc2, doc1, field).Compared?
    ensures CompareFields(docs, doc1, doc2, field).Matched() <==> CompareFields(docs, doc2, doc1, field).Matched()
  {
    ComparedIff(docs, doc1, doc2, field);
    ComparedIff(docs, doc2, doc1, field);
  }

  /** A document agrees with itself on every field it has. */
  lemma CompareFieldsReflexive(docs: Table<Record>, doc: string, field: string)
    requires FetchDocument(docs, doc).Success? && field in FetchDocument(docs, doc).value
    ensures CompareFields(docs, doc, doc, field).Matched()
  {
  }

  /** Surrounding whitespace and ASCII case never make two text values
      differ: a text value matches its own stripped, lower-cased form. */
  lemma NormalizeIgnoresPaddingAndCase(s: string)
    ensures Normalize(Str(s)) == Normalize(Str(Lower(Strip(s))))
  {
    StripIdempotent(s);
    LowerStripCommute(Strip(s));
    LowerIdempotent(Strip(s));
  }

  /** Lower-casing touches no whitespace character and no character becomes
      whitespace, so stripping a lower-cased string strips nothing more. */
  lemma LowerStripCommute(s: string)
    ensures Strip(Lower(s)) == Lower(Strip(s))
  {
    StripStartLower(s);
    StripEndLower(StripStart(s));
  }

  /** Lower-casing a character never changes whether it is whitespace. */
  lemma LowerCharSpace(c: char)
    ensures IsSpace(LowerChar(c)) <==> IsSpace(c)
  {
  }

  lemma {:induction false} StripStartLower(s: string)
    ensures StripStart(Lower(s)) == Lower(StripStart(s))
  {
    if s != [] {
      LowerCharSpace(s[0]);
      if IsSpace(s[0]) {
        assert Lower(s)[1..] == Lower(s[1..]);
        StripStartLower(s[1..]);
      }
    }
  }

  lemma {:induction false} StripEndLower(s: string)
    ensures StripEnd(Lower(s)) == Lower(StripEnd(s))
  {
    if s != [] {
      var n := |s| - 1;
      LowerCharSpace(s[n]);
      if IsSpace(s[n]) {
        assert Lower(s)[..n] == Lower(s[..n]);
        StripEndLower(s[..n]);
      }
    }
  }
}
