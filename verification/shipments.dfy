/**
  The shipment aggregation of viewAllShipments.py. The export and import
  endpoints run the same two-stage pipeline and differ only in their URLs,
  the name of the reference-number field and the tag they write, so both
  are one function parameterised by a Category.

  Stage one asks the reference service for the caller's base records
  (`data.output`). Stage two asks the container service, once per record and
  in order, for the container numbers of that record's reference number
  (`data.container_nums`). A non-empty answer is merged into the record as
  `container_numbers` together with a `type` tag; an empty answer leaves the
  record as it is. Any missing key raises in the source, which aborts the
  whole request: here that is a Failure carrying the Fault, with no list.
*/
module Shipments {
  import opened Wrappers
  import opened JsonValue

  datatype Category = Export | Import

  const IMPORT_URL: string := "http://core_import:5003"
  const IMPORT_CONT_URL: string := "http://core_import_cont:5004"
  const EXPORT_URL: string := "http://core_export:5006"
  const EXPORT_CONT_URL: string := "http://core_export_cont:5007"

  /** Field of the inbound body, and the only field of the reference lookup's body. */
  const USER_ID_KEY: string := "wguser_id"
  /** Fields an enriched record gains. */
  const CONTAINERS_KEY: string := "container_numbers"
  const TYPE_KEY: string := "type"

  /** The field of a base record that holds its reference number. */
  function RefKey(c: Category): string
  {
    match c
    case Export => "export_ref_n"
    case Import => "import_ref_n"
  }

  /** The `type` tag written into enriched records. */
  function Tag(c: Category): string
  {
    match c
    case Export => "Export"
    case Import => "Import"
  }

  function RefLookupUrl(c: Category): string
  {
    match c
    case Export => EXPORT_URL + "/export/export_ref_n/wguser_id"
    case Import => IMPORT_URL + "/import/import_ref_n/wguser_id"
  }

  function ContainerLookupUrl(c: Category): string
  {
    match c
    case Export => EXPORT_CONT_URL + "/export_cont/container_num"
    case Import => IMPORT_CONT_URL + "/import_cont/container_num"
  }

  /** One POST to a downstream service. */
  datatype Request = Request(url: string, body: Record)

  /** The reference service as the aggregator reads it: the `data.output`
      list of its reply, or None when the reply has no `data.output`. */
  type RefService = Request -> Option<seq<Json>>

  /** The container service as the aggregator reads it: the
      `data.container_nums` list of its reply, or None when it is missing. */
  type ContainerService = Request -> Option<seq<string>>

  /** Why a request aborted; `index` is the position of the offending base record. */
  datatype Fault =
    | MissingUserId
    | MissingOutput
    | NotARecord(index: nat)
    | MissingRefNumber(index: nat)
    | MissingContainerNums(index: nat)
  {
    predicate PerRecord() { NotARecord? || MissingRefNumber? || MissingContainerNums? }
  }

  /** What one aggregation does: its outcome and the downstream calls it issued, in order. */
  datatype Run = Run(outcome: Result<seq<Record>, Fault>, calls: seq<Request>)

  function RefRequest(c: Category, userId: Json): Request
  {
    Request(RefLookupUrl(c), map[USER_ID_KEY := userId])
  }

  function ContainerRequest(c: Category, ref: Json): Request
  {
    Request(ContainerLookupUrl(c), map[RefKey(c) := ref])
  }

  /** Merges one container answer into its base record. */
  function Merge(c: Category, rec: Record, conts: seq<string>): (r: Record)
    ensures |conts| == 0 ==> r == rec
    ensures |conts| > 0 ==> r.Keys == rec.Keys + {CONTAINERS_KEY, TYPE_KEY}
    ensures |conts| > 0 ==> r[CONTAINERS_KEY] == StrArray(conts) && r[TYPE_KEY] == Str(Tag(c))
    ensures forall k :: k in rec && k != CONTAINERS_KEY && k != TYPE_KEY ==> k in r && r[k] == rec[k]
  {
    if |conts| > 0 then rec[CONTAINERS_KEY := StrArray(conts)][TYPE_KEY := Str(Tag(c))] else rec
  }

  /** Prefixes records already produced and calls already issued to the rest of a run. */
  function Resume(done: seq<Record>, issued: seq<Request>, rest: Run): Run
  {
    var outcome := match rest.outcome
      case Success(out) => Success(done + out)
      case Failure(f) => Failure(f);
    Run(outcome, issued + rest.calls)
  }

  /** Resuming twice is resuming once with the prefixes concatenated. */
  lemma ResumeTwice(done: seq<Record>, issued: seq<Request>, more: seq<Record>, moreIssued: seq<Request>, rest: Run)
    ensures Resume(done, issued, Resume(more, moreIssued, rest)) == Resume(done + more, issued + moreIssued, rest)
  {
    assert issued + (moreIssued + rest.calls) == (issued + moreIssued) + rest.calls;
    if rest.outcome.Success? {
      assert done + (more + rest.outcome.value) == (done + more) + rest.outcome.value;
    }
  }

  /** Stage two from position `i` on: one container lookup per base record, in order. */
  function EnrichFrom(c: Category, items: seq<Json>, cont: ContainerService, i: nat): (r: Run)
    requires i <= |items|
    ensures r.outcome.Success? ==> |r.outcome.value| == |items| - i && |r.calls| == |items| - i
    ensures r.outcome.Failure? ==>
      && r.outcome.error.PerRecord()
      && i <= r.outcome.error.index < |items|
      && |r.calls| <= r.outcome.error.index - i + 1
    decreases |items| - i
  {
    if i == |items| then Run(Success([]), [])
    else
      var item := items[i];
      if !item.Obj? then Run(Failure(NotARecord(i)), [])
      else if RefKey(c) !in item.fields then Run(Failure(MissingRefNumber(i)), [])
      else
        var req := ContainerRequest(c, item.fields[RefKey(c)]);
        match cont(req)
        case None => Run(Failure(MissingContainerNums(i)), [req])
        case Some(conts) => Resume([Merge(c, item.fields, conts)], [req], EnrichFrom(c, items, cont, i + 1))
  }

  /** Both stages for one category, given the inbound request body. */
  function Aggregate(c: Category, body: Record, refs: RefService, cont: ContainerService): (r: Run)
    ensures r.calls == [] <==> USER_ID_KEY !in body
    ensures r.calls != [] ==> r.calls[0] == RefRequest(c, body[USER_ID_KEY])
    ensures r.outcome.Success? ==>
      && USER_ID_KEY in body
      && refs(RefRequest(c, body[USER_ID_KEY])).Some?
      && |r.outcome.value| == |refs(RefRequest(c, body[USER_ID_KEY])).value|
      && |r.calls| == 1 + |r.outcome.value|
  {
    if USER_ID_KEY !in body then Run(Failure(MissingUserId), [])
    else
      var req := RefRequest(c, body[USER_ID_KEY]);
      match refs(req)
      case None => Run(Failure(MissingOutput), [req])
      case Some(items) => Resume([], [req], EnrichFrom(c, items, cont, 0))
  }

  /** Both stages as a method: the `wguser_id` check and the reference lookup,
      then the source's loop over the base records. Where the source updates
      each record in place, this method appends the merged record to a new
      list, and it builds the call log step by step. */
  method AggregateLoop(c: Category, body: Record, refs: RefService, cont: ContainerService) returns (run: Run)
    ensures run == Aggregate(c, body, refs, cont)
  {
    if USER_ID_KEY !in body {
      return Run(Failure(MissingUserId), []);
    }
    var refReq := RefRequest(c, body[USER_ID_KEY]);
    var calls := [refReq];
    var reply := refs(refReq);
    if reply.None? {
      return Run(Failure(MissingOutput), calls);
    }
    var items := reply.value;
    var out: seq<Record> := [];
    var i := 0;
    while i < |items|
      invariant 0 <= i <= |items|
      invariant Aggregate(c, body, refs, cont) == Resume(out, calls, EnrichFrom(c, items, cont, i))
    {
      var item := items[i];
      if !item.Obj? {
        return Run(Failure(NotARecord(i)), calls);
      }
      if RefKey(c) !in item.fields {
        return Run(Failure(MissingRefNumber(i)), calls);
      }
      var req := ContainerRequest(c, item.fields[RefKey(c)]);
      var answer := cont(req);
      if answer.None? {
        return Run(Failure(MissingContainerNums(i)), calls + [req]);
      }
      var merged := Merge(c, item.fields, answer.value);
      ResumeTwice(out, calls, [merged], [req], EnrichFrom(c, items, cont, i + 1));
      out := out + [merged];
      calls := calls + [req];
      i := i + 1;
    }
    assert out + [] == out && calls + [] == calls;
    return Run(Success(out), calls);
  }
}
