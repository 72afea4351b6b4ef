/** What `Engine::add_simple_tcp_filter_v4` returns and which engine calls it makes, as
    functions of the statuses the engine answers to the transaction calls. The status
    of the sublayer registration is not an argument: the wrapper ignores it. */
module Adding {
  import opened Base
  import opened Guids
  import opened Fwp
  import opened Platform
  import opened Wfp
  import opened Listing

  /** The status the wrapper sees from `FwpmTransactionBegin0`: the engine refuses a
      second transaction, otherwise it answers with its scripted status. */
  function BeginStatus(txnOpen: bool, answer: Status): Status {
    if txnOpen then FWP_E_TXN_IN_PROGRESS else answer
  }

  /** The result of the add: the identifier the engine assigned, returned only when
      begin, add and commit all succeeded; otherwise the first failing call. */
  function AddResult(begin: Status, add: Status, commit: Status, id: FilterId): (r: Result<FilterId, WfpError>)
    ensures r.Ok? <==> begin == ERROR_SUCCESS && add == ERROR_SUCCESS && commit == ERROR_SUCCESS
    ensures r.Ok? ==> r.value == id
    ensures r.Err? && r.error.api == FwpmTransactionBegin0 ==> r.error.status == begin
    ensures r.Err? && r.error.api == FwpmFilterAdd0 ==> begin == ERROR_SUCCESS && r.error.status == add
    ensures r.Err? && r.error.api == FwpmTransactionCommit0 ==>
              begin == ERROR_SUCCESS && add == ERROR_SUCCESS && r.error.status == commit
    ensures r.Err? ==> r.error.api in {FwpmTransactionBegin0, FwpmFilterAdd0, FwpmTransactionCommit0}
    ensures r.Err? ==> r.error.status != ERROR_SUCCESS
  {
    if begin != ERROR_SUCCESS then Err(Failed(FwpmTransactionBegin0, begin))
    else if add != ERROR_SUCCESS then Err(Failed(FwpmFilterAdd0, add))
    else if commit != ERROR_SUCCESS then Err(Failed(FwpmTransactionCommit0, commit))
    else Ok(id)
  }

  /** The calls the add makes: register the sublayer and begin; if begin failed,
      nothing more; otherwise add the filter, then abort if the add failed and commit
      if it succeeded. */
  function AddTrace(begin: Status, add: Status): (t: seq<Call>)
    ensures |t| == if begin == ERROR_SUCCESS then 4 else 2
    ensures t[0] == SubLayerAdd(SLS_SUBLAYER_KEY) && t[1] == TransactionBegin
    ensures begin == ERROR_SUCCESS ==>
              t[2] == FilterAdd && (t[3] == TransactionAbort || t[3] == TransactionCommit)
    ensures FilterAdd in t <==> begin == ERROR_SUCCESS
    ensures TransactionAbort in t <==> begin == ERROR_SUCCESS && add != ERROR_SUCCESS
    ensures TransactionCommit in t <==> begin == ERROR_SUCCESS && add == ERROR_SUCCESS
    ensures TransactionAbort in t || TransactionCommit in t ==> t[|t| - 2] == FilterAdd
    ensures !(TransactionAbort in t && TransactionCommit in t)
  {
    [SubLayerAdd(SLS_SUBLAYER_KEY), TransactionBegin] +
    if begin != ERROR_SUCCESS then []
    else if add != ERROR_SUCCESS then [FilterAdd, TransactionAbort]
    else [FilterAdd, TransactionCommit]
  }

  /** The sublayers after the registration the add starts with: the constant sublayer
      is there afterwards if it was before or if the engine accepted it, in which case
      it is the wrapper's "SLS SubLayer" record; every other record is kept. */
  function RegisterSlsSubLayer(subLayers: map<Guid, SubLayer>, answer: Status): (m: map<Guid, SubLayer>)
    ensures SLS_SUBLAYER_KEY in subLayers ==> m == subLayers
    ensures SLS_SUBLAYER_KEY in m <==> SLS_SUBLAYER_KEY in subLayers || answer == ERROR_SUCCESS
    ensures forall k :: k != SLS_SUBLAYER_KEY ==> (k in m <==> k in subLayers)
    ensures forall k :: k in subLayers && k != SLS_SUBLAYER_KEY ==> m[k] == subLayers[k]
    ensures SLS_SUBLAYER_KEY !in subLayers && answer == ERROR_SUCCESS ==> m[SLS_SUBLAYER_KEY] == SLS_SUBLAYER
  {
    if SLS_SUBLAYER_KEY !in subLayers && answer == ERROR_SUCCESS
    then subLayers[SLS_SUBLAYER_KEY := SLS_SUBLAYER] else subLayers
  }

  /** The committed table after the add: the new rule under its identifier if the add
      succeeded, the table as it was otherwise. */
  function TableAfterAdd(filters: map<FilterId, Filter>, r: Result<FilterId, WfpError>,
                         name: string, remotePort: u16, action: WfpAction): map<FilterId, Filter> {
    if r.Ok? then filters[r.value := SimpleTcpFilterV4(name, remotePort, action).(filterId := r.value)]
    else filters
  }

  /** Atomicity: the committed table changes only when the whole add succeeded, and
      then by exactly one rule, stored under the returned identifier, that reads back
      as the requested name, port and action and lists as the requested action. */
  lemma AddIsAtomic(filters: map<FilterId, Filter>, begin: Status, add: Status, commit: Status,
                    id: FilterId, name: string, remotePort: u16, action: WfpAction)
    requires id !in filters
    ensures var r := AddResult(begin, add, commit, id);
      var after := TableAfterAdd(filters, r, name, remotePort, action);
      && (r.Err? ==> after == filters)
      && (r.Ok? ==> after.Keys == filters.Keys + {id} &&
                    (forall k :: k in filters ==> after[k] == filters[k]) &&
                    SimpleTcpRuleParams(after[id]) == Some((name, remotePort, action)) &&
                    Summarize(after[id]) == FilterSummary(id, name, "ALE_AUTH_CONNECT_V4", action))
  {
    var r := AddResult(begin, add, commit, id);
    if r.Ok? {
      SimpleTcpRuleRoundTrip(name, remotePort, action, id);
      AddedFilterSummary(name, remotePort, action, id);
    }
  }

  /** A committed add is then listed: over an engine that serves a sequence holding
      every rule of the committed table, in pages of PAGE_SIZE, the listing succeeds
      and shows the new rule with its identifier, name, layer token and action. */
  lemma AddedRuleIsListed(filters: map<FilterId, Filter>, begin: Status, add: Status, commit: Status,
                          id: FilterId, name: string, remotePort: u16, action: WfpAction, fs: seq<Filter>)
    requires id !in filters
    requires AddResult(begin, add, commit, id).Ok?
    requires forall k :: k in TableAfterAdd(filters, AddResult(begin, add, commit, id), name, remotePort, action) ==>
               TableAfterAdd(filters, AddResult(begin, add, commit, id), name, remotePort, action)[k] in fs
    ensures ListResult(ERROR_SUCCESS, Serve(fs)).Ok?
    ensures FilterSummary(id, name, "ALE_AUTH_CONNECT_V4", action) in ListResult(ERROR_SUCCESS, Serve(fs)).value
  {
    var after := TableAfterAdd(filters, AddResult(begin, add, commit, id), name, remotePort, action);
    AddIsAtomic(filters, begin, add, commit, id, name, remotePort, action);
    assert id in after;
    var i :| 0 <= i < |fs| && fs[i] == after[id];
    ListCompleteness(fs);
    SummariesAt(fs, i);
  }
}
