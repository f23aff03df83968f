/**
  Properties of the shipment aggregation, stated against a per-record
  reference definition: what each base record should turn into, and which
  lookup it should cause, independently of how the pipeline walks the list.
*/
module ShipmentLemmas {
  import opened Wrappers
  import opened JsonValue
  import opened Shipments

  /** The reference number of a base record, when it is an object that carries one. */
  function RefNumber(c: Category, item: Json): Option<Json>
  {
    if item.Obj? && RefKey(c) in item.fields then Some(item.fields[RefKey(c)]) else None
  }

  /** A base record can be enriched: it has a reference number and the
      container service's reply for it has `data.container_nums`. */
  predicate Answered(c: Category, item: Json, cont: ContainerService)
  {
    RefNumber(c, item).Some? && cont(ContainerRequest(c, RefNumber(c, item).value)).Some?
  }

  /** The container numbers the service gives for an answered record. */
  function Answer(c: Category, item: Json, cont: ContainerService): seq<string>
    requires Answered(c, item, cont)
  {
    cont(ContainerRequest(c, RefNumber(c, item).value)).value
  }

  /** The record the aggregation should return for one answered base record. */
  function Expected(c: Category, item: Json, cont: ContainerService): Record
    requires Answered(c, item, cont)
  {
    Merge(c, item.fields, Answer(c, item, cont))
  }

  /** `calls` are the container lookups of `items[i]`, `items[i + 1]`, ...,
      in that order, each keyed by its record's own reference number. */
  predicate LookupsOf(c: Category, items: seq<Json>, i: nat, calls: seq<Request>)
  {
    && i + |calls| <= |items|
    && forall k :: i <= k < i + |calls| ==>
         RefNumber(c, items[k]).Some? && calls[k - i] == ContainerRequest(c, RefNumber(c, items[k]).value)
  }

  lemma LookupsOfPrepend(c: Category, items: seq<Json>, i: nat, calls: seq<Request>)
    requires i < |items| && RefNumber(c, items[i]).Some?
    requires LookupsOf(c, items, i + 1, calls)
    ensures LookupsOf(c, items, i, [ContainerRequest(c, RefNumber(c, items[i]).value)] + calls)
  {
    var all := [ContainerRequest(c, RefNumber(c, items[i]).value)] + calls;
    forall k | i < k < i + |all|
      ensures RefNumber(c, items[k]).Some? && all[k - i] == ContainerRequest(c, RefNumber(c, items[k]).value)
    {
      assert all[k - i] == calls[k - (i + 1)];
    }
  }

  /** Stage two succeeds exactly when every remaining base record is answered. */
  lemma {:induction false} EnrichFromSucceedsIff(c: Category, items: seq<Json>, cont: ContainerService, i: nat)
    requires i <= |items|
    ensures EnrichFrom(c, items, cont, i).outcome.Success? <==>
      forall j :: i <= j < |items| ==> Answered(c, items[j], cont)
    decreases |items| - i
  {
    if i < |items| {
      EnrichFromSucceedsIff(c, items, cont, i + 1);
    }
  }

  /** On success, stage two returns one record per base record, in the same
      order, each the merge of that record with its own answer. */
  lemma {:induction false} EnrichFromOutput(c: Category, items: seq<Json>, cont: ContainerService, i: nat)
    requires i <= |items|
    requires EnrichFrom(c, items, cont, i).outcome.Success?
    ensures var out := EnrichFrom(c, items, cont, i).outcome.value;
      && |out| == |items| - i
      && forall j :: i <= j < |items| ==> Answered(c, items[j], cont) && out[j - i] == Expected(c, items[j], cont)
    decreases |items| - i
  {
    if i < |items| {
      assert Answered(c, items[i], cont);
      EnrichFromOutput(c, items, cont, i + 1);
      var rest := EnrichFrom(c, items, cont, i + 1).outcome.value;
      assert EnrichFrom(c, items, cont, i).outcome.value == [Expected(c, items[i], cont)] + rest;
    }
  }

  /** On success, stage two issues exactly one lookup per base record, in
      order, keyed by that record's own reference number. */
  lemma {:induction false} EnrichFromCalls(c: Category, items: seq<Json>, cont: ContainerService, i: nat)
    requires i <= |items|
    requires EnrichFrom(c, items, cont, i).outcome.Success?
    ensures var calls := EnrichFrom(c, items, cont, i).calls;
      |calls| == |items| - i && LookupsOf(c, items, i, calls)
    decreases |items| - i
  {
    if i < |items| {
      assert Answered(c, items[i], cont);
      EnrichFromCalls(c, items, cont, i + 1);
      var rest := EnrichFrom(c, items, cont, i + 1).calls;
      assert EnrichFrom(c, items, cont, i).calls == [ContainerRequest(c, RefNumber(c, items[i]).value)] + rest;
      LookupsOfPrepend(c, items, i, rest);
    }
  }

  /** On failure, stage two stopped at the first base record that could not
      be enriched: every earlier record was answered, and the fault names why
      that one was not. */
  lemma {:induction false} EnrichFromStops(c: Category, items: seq<Json>, cont: ContainerService, i: nat)
    requires i <= |items|
    requires EnrichFrom(c, items, cont, i).outcome.Failure?
    ensures var f := EnrichFrom(c, items, cont, i).outcome.error;
      && f.PerRecord()
      && i <= f.index < |items|
      && (forall j :: i <= j < f.index ==> Answered(c, items[j], cont))
      && !Answered(c, items[f.index], cont)
      && (f.NotARecord? <==> !items[f.index].Obj?)
      && (f.MissingContainerNums? <==> RefNumber(c, items[f.index]).Some?)
    decreases |items| - i
  {
    assert i < |items|;
    if Answered(c, items[i], cont) {
      EnrichFromStops(c, items, cont, i + 1);
    }
  }

  /** On failure, the calls issued are the lookups of the base records up to
      the faulty one, and of the faulty one too when it had a reference number. */
  lemma {:induction false} EnrichFromStopsCalls(c: Category, items: seq<Json>, cont: ContainerService, i: nat)
    requires i <= |items|
    requires EnrichFrom(c, items, cont, i).outcome.Failure?
    ensures var r := EnrichFrom(c, items, cont, i);
      var f := r.outcome.error;
      && f.PerRecord()
      && |r.calls| == f.index - i + (if f.MissingContainerNums? then 1 else 0)
      && LookupsOf(c, items, i, r.calls)
    decreases |items| - i
  {
    var r := EnrichFrom(c, items, cont, i);
    EnrichFromStops(c, items, cont, i);
    if Answered(c, items[i], cont) {
      var req := ContainerRequest(c, RefNumber(c, items[i]).value);
      var rest := EnrichFrom(c, items, cont, i + 1);
      EnrichFromStopsCalls(c, items, cont, i + 1);
      assert r.calls == [req] + rest.calls;
      assert r.outcome.error == rest.outcome.error;
      LookupsOfPrepend(c, items, i, rest.calls);
    } else if RefNumber(c, items[i]).Some? {
      assert r == Run(Failure(MissingContainerNums(i)), [ContainerRequest(c, RefNumber(c, items[i]).value)]);
    } else if items[i].Obj? {
      assert r == Run(Failure(MissingRefNumber(i)), []);
    } else {
      assert r == Run(Failure(NotARecord(i)), []);
    }
  }

  /** The aggregation succeeds exactly when the inbound body names a user, the
      reference reply has `data.output`, and every base record is answered;
      otherwise the whole request fails and returns no list. */
  lemma AggregateSucceedsIff(c: Category, body: Record, refs: RefService, cont: ContainerService)
    ensures Aggregate(c, body, refs, cont).outcome.Success? <==>
      && USER_ID_KEY in body
      && refs(RefRequest(c, body[USER_ID_KEY])).Some?
      && var items := refs(RefRequest(c, body[USER_ID_KEY])).value;
         forall j :: 0 <= j < |items| ==> Answered(c, items[j], cont)
  {
    if USER_ID_KEY in body && refs(RefRequest(c, body[USER_ID_KEY])).Some? {
      EnrichFromSucceedsIff(c, refs(RefRequest(c, body[USER_ID_KEY])).value, cont, 0);
    }
  }

  /** A successful aggregation has exactly one output record per base record,
      in the reference service's order: none dropped, duplicated or moved. */
  lemma AggregateKeepsLengthAndOrder(c: Category, body: Record, refs: RefService, cont: ContainerService)
    requires Aggregate(c, body, refs, cont).outcome.Success?
    ensures USER_ID_KEY in body && refs(RefRequest(c, body[USER_ID_KEY])).Some?
    ensures var items := refs(RefRequest(c, body[USER_ID_KEY])).value;
      var out := Aggregate(c, body, refs, cont).outcome.value;
      && |out| == |items|
      && forall j :: 0 <= j < |items| ==> Answered(c, items[j], cont) && out[j] == Expected(c, items[j], cont)
  {
    EnrichFromOutput(c, refs(RefRequest(c, body[USER_ID_KEY])).value, cont, 0);
  }

  /** A successful aggregation issues the reference lookup first, then exactly
      one container lookup per base record, in order, each keyed by that
      record's own reference number. */
  lemma OneLookupPerRecord(c: Category, body: Record, refs: RefService, cont: ContainerService)
    requires Aggregate(c, body, refs, cont).outcome.Success?
    ensures USER_ID_KEY in body && refs(RefRequest(c, body[USER_ID_KEY])).Some?
    ensures var items := refs(RefRequest(c, body[USER_ID_KEY])).value;
      var calls := Aggregate(c, body, refs, cont).calls;
      && |calls| == 1 + |items|
      && calls[0] == RefRequest(c, body[USER_ID_KEY])
      && LookupsOf(c, items, 0, calls[1..])
  {
    var items := refs(RefRequest(c, body[USER_ID_KEY])).value;
    EnrichFromCalls(c, items, cont, 0);
    var calls := Aggregate(c, body, refs, cont).calls;
    assert calls == [RefRequest(c, body[USER_ID_KEY])] + EnrichFrom(c, items, cont, 0).calls;
    assert calls[1..] == EnrichFrom(c, items, cont, 0).calls;
  }

  /** Whatever happens, the reference lookup is issued at most once, first,
      to the category's reference URL, with a body holding only the caller's
      `wguser_id`; every later call is a container lookup. */
  lemma ReferenceLookupIssuedOnce(c: Category, body: Record, refs: RefService, cont: ContainerService)
    ensures var calls := Aggregate(c, body, refs, cont).calls;
      && (USER_ID_KEY !in body ==> calls == [])
      && (USER_ID_KEY in body ==>
            && |calls| >= 1
            && calls[0].url == RefLookupUrl(c)
            && calls[0].body.Keys == {USER_ID_KEY}
            && calls[0].body[USER_ID_KEY] == body[USER_ID_KEY])
      && forall k :: 1 <= k < |calls| ==> calls[k].url == ContainerLookupUrl(c) != RefLookupUrl(c)
  {
    assert RefLookupUrl(c)[14] != ContainerLookupUrl(c)[14] || RefLookupUrl(c)[18] != ContainerLookupUrl(c)[18];
    if USER_ID_KEY in body {
      var req := RefRequest(c, body[USER_ID_KEY]);
      if refs(req).Some? {
        var items := refs(req).value;
        var r := EnrichFrom(c, items, cont, 0);
        if r.outcome.Success? {
          EnrichFromCalls(c, items, cont, 0);
        } else {
          EnrichFromStopsCalls(c, items, cont, 0);
        }
        forall k | 0 <= k < |r.calls|
          ensures r.calls[k].url == ContainerLookupUrl(c)
        {
          assert RefNumber(c, items[k]).Some? && r.calls[k - 0] == ContainerRequest(c, RefNumber(c, items[k]).value);
        }
        assert Aggregate(c, body, refs, cont).calls == [req] + r.calls;
      }
    }
  }

  /** An empty reference list gives an empty output and no container lookups. */
  lemma EmptyReferenceList(c: Category, body: Record, refs: RefService, cont: ContainerService)
    requires USER_ID_KEY in body
    requires refs(RefRequest(c, body[USER_ID_KEY])) == Some([])
    ensures Aggregate(c, body, refs, cont) == Run(Success([]), [RefRequest(c, body[USER_ID_KEY])])
  {
    var req := RefRequest(c, body[USER_ID_KEY]);
    var none: seq<Json> := [];
    assert EnrichFrom(c, none, cont, 0) == Run(Success([]), []);
    var noRecords: seq<Record> := [];
    assert noRecords + noRecords == noRecords;
    assert [req] + [] == [req];
    assert Resume([], [req], Run(Success([]), [])) == Run(Success([]), [req]);
  }

  /** Enrichment only adds: every output record keeps every field of its base
      record other than `container_numbers` and `type`, its reference number
      in particular. A non-empty answer adds exactly those two fields, holding
      the answer's container numbers in order and the category's tag; an
      empty answer leaves the record exactly as it was. */
  lemma EnrichmentOnlyAdds(c: Category, body: Record, refs: RefService, cont: ContainerService)
    requires Aggregate(c, body, refs, cont).outcome.Success?
    ensures USER_ID_KEY in body && refs(RefRequest(c, body[USER_ID_KEY])).Some?
    ensures var items := refs(RefRequest(c, body[USER_ID_KEY])).value;
      var out := Aggregate(c, body, refs, cont).outcome.value;
      && |out| == |items|
      && forall j :: 0 <= j < |items| ==>
           && Answered(c, items[j], cont)
           && RefKey(c) in out[j] && out[j][RefKey(c)] == items[j].fields[RefKey(c)]
           && (forall k :: k in items[j].fields && k != CONTAINERS_KEY && k != TYPE_KEY ==>
                 k in out[j] && out[j][k] == items[j].fields[k])
           && (|Answer(c, items[j], cont)| == 0 ==> out[j] == items[j].fields)
           && (|Answer(c, items[j], cont)| > 0 ==>
                 && out[j].Keys == items[j].fields.Keys + {CONTAINERS_KEY, TYPE_KEY}
                 && out[j][CONTAINERS_KEY] == StrArray(Answer(c, items[j], cont))
                 && out[j][TYPE_KEY] == Str(Tag(c)))
  {
    AggregateKeepsLengthAndOrder(c, body, refs, cont);
  }

  /** The two endpoints merge identically and differ only in the tag they write. */
  lemma VariantsDifferOnlyInTag(rec: Record, conts: seq<string>)
    ensures Merge(Export, rec, conts).Keys == Merge(Import, rec, conts).Keys
    ensures forall k :: k in Merge(Export, rec, conts) && k != TYPE_KEY ==>
      Merge(Export, rec, conts)[k] == Merge(Import, rec, conts)[k]
    ensures |conts| > 0 ==>
      Merge(Export, rec, conts)[TYPE_KEY] == Str("Export") && Merge(Import, rec, conts)[TYPE_KEY] == Str("Import")
  {
  }

  /** The export endpoint tags every record it enriches "Export", the import endpoint "Import". */
  lemma EndpointsTagByCategory(c: Category, body: Record, refs: RefService, cont: ContainerService)
    requires Aggregate(c, body, refs, cont).outcome.Success?
    ensures USER_ID_KEY in body && refs(RefRequest(c, body[USER_ID_KEY])).Some?
    ensures var items := refs(RefRequest(c, body[USER_ID_KEY])).value;
      var out := Aggregate(c, body, refs, cont).outcome.value;
      && |out| == |items|
      && forall j :: 0 <= j < |items| ==>
           Answered(c, items[j], cont) &&
           (|Answer(c, items[j], cont)| > 0 ==> TYPE_KEY in out[j] && out[j][TYPE_KEY] == Str(if c == Export then "Export" else "Import"))
  {
    AggregateKeepsLengthAndOrder(c, body, refs, cont);
  }

  /** The container numbers the documentation lists for export references 17612 and 17625. */
  const SAMPLE_CONTS_17612: seq<string> :=
    ["HLXU5027876", "HLXU2139717", "HLCU4187010", "HLCU2231582", "HLCU2258177", "HLXU3075047", "HLCU2100704"]
  const SAMPLE_CONTS_17625: seq<string> := ["GESU4205066", "HDMU6127648", "TGHU7584650"]

  /** The first two base records behind the documented sample response. */
  const SAMPLE_BASE_17612: Record :=
    map["delivery_date" := Str("Tue, 01 Jun 2021 00:00:00 GMT"), "destination_port" := Str("KARACHI"),
        "export_ref_n" := Num(17612)]
  const SAMPLE_BASE_17625: Record :=
    map["delivery_date" := Str("Sat, 07 Nov 2020 00:00:00 GMT"), "destination_port" := Str("MUMBAI,INDIA"),
        "export_ref_n" := Num(17625)]

  /** The first two records of the documented sample response of `getExportContainerNum`. */
  const SAMPLE_DOC_17612: Record := SAMPLE_BASE_17612["container_numbers" := StrArray(SAMPLE_CONTS_17612)]
  const SAMPLE_DOC_17625: Record := SAMPLE_BASE_17625["container_numbers" := StrArray(SAMPLE_CONTS_17625)]

  /** The documented sample request, restricted to its first two records and
      with the container service answering the documented lists: each output
      record is the documented one plus a `type: "Export"` field, which the
      code adds but the documented response does not show. */
  lemma SampleExportRun()
    ensures
      var refs: RefService := (req: Request) => Some([Obj(SAMPLE_BASE_17612), Obj(SAMPLE_BASE_17625)]);
      var cont: ContainerService := (req: Request) =>
        if req.body == map["export_ref_n" := Num(17612)] then Some(SAMPLE_CONTS_17612) else Some(SAMPLE_CONTS_17625);
      var run := Aggregate(Export, map["wguser_id" := Str("bk666dcoeZTH3dxZCuu4FR")], refs, cont);
      && run.outcome.Success?
      && run.outcome.value == [SAMPLE_DOC_17612[TYPE_KEY := Str("Export")], SAMPLE_DOC_17625[TYPE_KEY := Str("Export")]]
      && TYPE_KEY !in SAMPLE_DOC_17612 && TYPE_KEY !in SAMPLE_DOC_17625
  {
    var refs: RefService := (req: Request) => Some([Obj(SAMPLE_BASE_17612), Obj(SAMPLE_BASE_17625)]);
    var cont: ContainerService := (req: Request) =>
      if req.body == map["export_ref_n" := Num(17612)] then Some(SAMPLE_CONTS_17612) else Some(SAMPLE_CONTS_17625);
    var body := map["wguser_id" := Str("bk666dcoeZTH3dxZCuu4FR")];
    var items := [Obj(SAMPLE_BASE_17612), Obj(SAMPLE_BASE_17625)];
    assert refs(RefRequest(Export, body[USER_ID_KEY])) == Some(items);
    assert map["export_ref_n" := Num(17625)] != map["export_ref_n" := Num(17612)] by {
      assert map["export_ref_n" := Num(17625)]["export_ref_n"] != map["export_ref_n" := Num(17612)]["export_ref_n"];
    }
    assert RefNumber(Export, items[0]) == Some(Num(17612));
    assert RefNumber(Export, items[1]) == Some(Num(17625));
    assert cont(ContainerRequest(Export, Num(17612))) == Some(SAMPLE_CONTS_17612);
    assert cont(ContainerRequest(Export, Num(17625))) == Some(SAMPLE_CONTS_17625);
    assert forall j :: 0 <= j < |items| ==> Answered(Export, items[j], cont);
    AggregateSucceedsIff(Export, body, refs, cont);
    AggregateKeepsLengthAndOrder(Export, body, refs, cont);
    assert TYPE_KEY !in SAMPLE_BASE_17612 && TYPE_KEY !in SAMPLE_BASE_17625 by {
      assert TYPE_KEY[0] == 't';
    }
    assert TYPE_KEY != CONTAINERS_KEY by { assert TYPE_KEY[0] != CONTAINERS_KEY[0]; }
  }
}
