/** `Engine`, the wrapper around an open engine session, and its two operations. */
module WfpEngine {
  import opened Base
  import opened Guids
  import opened Fwp
  import opened Platform
  import opened Wfp
  import opened Listing
  import opened Adding

  class Engine {
    /** The engine behind the session handle. */
    const wfp: Platform

    /** `Ok(Self(h))`: wraps a session that is already open. */
    constructor (wfp: Platform)
      ensures this.wfp == wfp
    {
      this.wfp := wfp;
    }

    /** `add_simple_tcp_filter_v4`: register the constant sublayer (ignoring the
        answer), then in one transaction add an outbound IPv4 connect rule on TCP and
        the remote port with the requested action; a failed add aborts the transaction.
        A name holding a NUL character makes the wide-string conversion panic: that is
        the caller's obligation. */
    method AddSimpleTcpFilterV4(name: string, remotePort: u16, action: WfpAction)
      returns (r: Result<FilterId, WfpError>)
      requires wfp.Valid() && '\0' !in name
      modifies wfp
      ensures wfp.Valid()
      ensures var s := old(wfp.statuses);
        var begin, add := BeginStatus(old(wfp.txnOpen), StatusAt(s, 1)), StatusAt(s, 2);
        && r == AddResult(begin, add, StatusAt(s, 3), old(wfp.nextId))
        && wfp.filters == TableAfterAdd(old(wfp.filters), r, name, remotePort, action)
        && wfp.subLayers == RegisterSlsSubLayer(old(wfp.subLayers), StatusAt(s, 0))
        && wfp.log == old(wfp.log) + AddTrace(begin, add)
        && wfp.statuses == Drop(s, if begin == ERROR_SUCCESS then 4 else 2)
        && wfp.nextId == old(wfp.nextId) + (if begin == ERROR_SUCCESS && add == ERROR_SUCCESS then 1 else 0)
        && wfp.txnOpen == old(wfp.txnOpen)
        && wfp.pending == if begin == ERROR_SUCCESS then map[] else old(wfp.pending)
      ensures unchanged(wfp`enumOpen, wfp`replies, wfp`served, wfp`unfreed)
    {
      ghost var s := wfp.statuses;
      var _ := wfp.FwpmSubLayerAdd0(SLS_SUBLAYER);
      var st := wfp.FwpmTransactionBegin0();
      StatusesAfter(s, 1, 0);
      if st != ERROR_SUCCESS {
        DropTwice(s, 1, 1);
        return Err(Failed(FwpmTransactionBegin0, st));
      }
      ghost var s2, log2 := wfp.statuses, wfp.log;
      DropTwice(s, 1, 1);
      StatusesAfter(s, 2, 0);
      StatusesAfter(s, 2, 1);
      r := AddInTransaction(name, remotePort, action);
      DropTwice(s, 2, 2);
      AddTraceExtends(log2, old(wfp.log), StatusAt(s, 2));
    }

    /** The part of `add_simple_tcp_filter_v4` inside its transaction: add the rule,
        then abort if that failed and commit if it succeeded. */
    method AddInTransaction(name: string, remotePort: u16, action: WfpAction)
      returns (r: Result<FilterId, WfpError>)
      requires wfp.Valid() && wfp.txnOpen && wfp.pending == wfp.filters
      modifies wfp
      ensures wfp.Valid() && !wfp.txnOpen && wfp.pending == map[]
      ensures var add, commit := StatusAt(old(wfp.statuses), 0), StatusAt(old(wfp.statuses), 1);
        && r == AddResult(ERROR_SUCCESS, add, commit, old(wfp.nextId))
        && wfp.filters == TableAfterAdd(old(wfp.filters), r, name, remotePort, action)
        && wfp.log == old(wfp.log) + [FilterAdd, if add == ERROR_SUCCESS then TransactionCommit else TransactionAbort]
        && wfp.statuses == Drop(old(wfp.statuses), 2)
        && wfp.nextId == old(wfp.nextId) + (if add == ERROR_SUCCESS then 1 else 0)
      ensures unchanged(wfp`subLayers, wfp`enumOpen, wfp`replies, wfp`served, wfp`unfreed)
    {
      ghost var s, log0 := wfp.statuses, wfp.log;
      var filter := SimpleTcpFilterV4(name, remotePort, action);
      var st, id := wfp.FwpmFilterAdd0(filter);
      StatusesAfter(s, 1, 0);
      DropTwice(s, 1, 1);
      if st != ERROR_SUCCESS {
        var _ := wfp.FwpmTransactionAbort0();
        PairAppended(log0, FilterAdd, TransactionAbort);
        return Err(Failed(FwpmFilterAdd0, st));
      }
      st := wfp.FwpmTransactionCommit0();
      PairAppended(log0, FilterAdd, TransactionCommit);
      if st != ERROR_SUCCESS {
        return Err(Failed(FwpmTransactionCommit0, st));
      }
      r := Ok(id);
    }

    /** `list_filters`: create an enumeration handle, then request pages of PAGE_SIZE
        entries until a page is empty or null, summarizing every entry and releasing
        every consumed page; destroy the handle on the way out. */
    method ListFilters() returns (r: Result<seq<FilterSummary>, WfpError>)
      requires wfp.Valid() && !wfp.enumOpen
      modifies wfp
      ensures wfp.Valid() && !wfp.enumOpen
      ensures var createStatus, rs, k := StatusAt(old(wfp.statuses), 0), old(wfp.replies), StopIndex(old(wfp.replies));
        && r == ListResult(createStatus, rs)
        && wfp.log == old(wfp.log) + ListTrace(createStatus, rs, old(wfp.served))
        && wfp.unfreed == old(wfp.unfreed) + Unreleased(createStatus, rs, old(wfp.served))
        && wfp.statuses == Drop(old(wfp.statuses), if createStatus == ERROR_SUCCESS then 2 else 1)
        && wfp.replies == (if createStatus == ERROR_SUCCESS then Drop(rs, k + 1) else rs)
        && wfp.served == old(wfp.served) + (if createStatus == ERROR_SUCCESS then k + 1 else 0)
      ensures unchanged(wfp`filters, wfp`subLayers, wfp`txnOpen, wfp`pending, wfp`nextId)
    {
      var st := wfp.FwpmFilterCreateEnumHandle0();
      if st != ERROR_SUCCESS {
        return Err(Failed(FwpmFilterCreateEnumHandle0, st));
      }
      r := EnumeratePages();
    }

    /** The loop of `list_filters`, entered with the enumeration handle open; both of
        its exits destroy the handle. */
    method EnumeratePages() returns (r: Result<seq<FilterSummary>, WfpError>)
      requires wfp.Valid() && wfp.enumOpen
      modifies wfp
      ensures wfp.Valid() && !wfp.enumOpen
      ensures var rs, k := old(wfp.replies), StopIndex(old(wfp.replies));
        && r == ListResult(ERROR_SUCCESS, rs)
        && wfp.log == old(wfp.log) + EnumTrace(rs, old(wfp.served))
        && wfp.unfreed == old(wfp.unfreed) + Unreleased(ERROR_SUCCESS, rs, old(wfp.served))
        && wfp.statuses == Drop(old(wfp.statuses), 1)
        && wfp.replies == Drop(rs, k + 1)
        && wfp.served == old(wfp.served) + k + 1
      ensures unchanged(wfp`filters, wfp`subLayers, wfp`txnOpen, wfp`pending, wfp`nextId)
    {
      ghost var rs, first, log0, unfreed0 := wfp.replies, wfp.served, wfp.log, wfp.unfreed;
      ghost var statuses0 := wfp.statuses;
      var out: seq<FilterSummary> := [];
      ghost var i: nat := 0;
      while true
        invariant wfp.Valid() && wfp.enumOpen
        invariant i <= StopIndex(rs) && i <= |rs|
        invariant wfp.replies == Drop(rs, i) && wfp.served == first + i
        invariant out == Collected(rs, i)
        invariant wfp.log == log0 + PageCalls(first, i)
        invariant wfp.unfreed == unfreed0 && wfp.statuses == statuses0
        invariant unchanged(wfp`filters, wfp`subLayers, wfp`txnOpen, wfp`pending, wfp`nextId)
        decreases |rs| - i
      {
        ghost var log1, out0 := wfp.log, out;
        var st, more;
        st, more, out := FetchPage(rs, first, i, out);
        if st != ERROR_SUCCESS {
          CloseEnumeration(rs, first, log0, i);
          return Err(Failed(FwpmFilterEnum0, st));
        }
        if !more {
          break;
        }
        CollectNext(rs, i, out0, rs[i].page.entries, out);
        NextPageCalls(log0, first, i, log1, wfp.log);
        i := i + 1;
      }
      CloseEnumeration(rs, first, log0, i);
      CollectedSummaries(rs, i);
      r := Ok(out);
    }

    /** One round of the loop of `list_filters`: request a page; unless the reply ends
        the loop, summarize its entries and release its buffer. */
    method FetchPage(ghost rs: seq<EnumReply>, ghost first: nat, ghost i: nat, out: seq<FilterSummary>)
      returns (st: Status, more: bool, out': seq<FilterSummary>)
      requires wfp.Valid() && wfp.enumOpen
      requires i <= StopIndex(rs) && i <= |rs|
      requires wfp.replies == Drop(rs, i) && wfp.served == first + i
      modifies wfp
      ensures wfp.Valid() && wfp.enumOpen
      ensures wfp.replies == Drop(rs, i + 1) && wfp.served == first + i + 1
      ensures st == ReplyAt(rs, i).status && (more <==> Continues(ReplyAt(rs, i)))
      ensures more ==> && i + 1 <= StopIndex(rs) && i + 1 <= |rs| && out' == out + Summaries(rs[i].page.entries)
                       && wfp.log == old(wfp.log) + [FilterEnum(PAGE_SIZE), FreeMemory(first + i)]
                       && wfp.unfreed == old(wfp.unfreed)
      ensures !more ==> && StopIndex(rs) == i && out' == out
                        && wfp.log == old(wfp.log) + [FilterEnum(PAGE_SIZE)]
                        && wfp.unfreed == old(wfp.unfreed) + Unreleased(ERROR_SUCCESS, rs, first)
      ensures unchanged(wfp`filters, wfp`subLayers, wfp`txnOpen, wfp`pending, wfp`nextId, wfp`statuses)
    {
      ReplyOfDrop(rs, i);
      ghost var unfreed0, log0 := wfp.unfreed, wfp.log;
      var page, buffer;
      st, page, buffer := wfp.FwpmFilterEnum0(PAGE_SIZE);
      if st != ERROR_SUCCESS || page.isNull || |page.entries| == 0 {
        StopsAt(rs, i);
        return st, false, out;
      }
      ContinuesPast(rs, i);
      ReleaseRestores(unfreed0, buffer);
      ghost var log1 := wfp.log;
      out' := ConsumePage(out, page.entries, buffer);
      PageLog(log0, log1, wfp.log, first + i);
      more := true;
    }

    /** The body of the loop of `list_filters` for a page with entries: push the
        summary of every entry, then release the page's buffer. */
    method ConsumePage(out: seq<FilterSummary>, entries: seq<Filter>, buffer: nat) returns (out': seq<FilterSummary>)
      requires wfp.Valid() && buffer in wfp.unfreed
      modifies wfp
      ensures out' == out + Summaries(entries)
      ensures wfp.Valid() && wfp.unfreed == old(wfp.unfreed) - {buffer}
      ensures wfp.log == old(wfp.log) + [FreeMemory(buffer)]
      ensures unchanged(wfp`filters, wfp`subLayers, wfp`txnOpen, wfp`pending, wfp`nextId)
      ensures unchanged(wfp`enumOpen, wfp`statuses, wfp`replies, wfp`served)
    {
      out' := SummarizePage(out, entries);
      wfp.FwpmFreeMemory0(buffer);
    }

    /** Destroys the enumeration handle after the request whose reply ends the loop. */
    method CloseEnumeration(ghost rs: seq<EnumReply>, ghost first: nat, ghost log0: seq<Call>, ghost i: nat)
      requires wfp.Valid() && wfp.enumOpen && StopIndex(rs) == i
      requires wfp.log == log0 + PageCalls(first, i) + [FilterEnum(PAGE_SIZE)]
      modifies wfp
      ensures wfp.Valid() && !wfp.enumOpen && wfp.log == log0 + EnumTrace(rs, first)
      ensures wfp.statuses == Drop(old(wfp.statuses), 1)
      ensures unchanged(wfp`filters, wfp`subLayers, wfp`txnOpen, wfp`pending, wfp`nextId)
      ensures unchanged(wfp`replies, wfp`served, wfp`unfreed)
    {
      ghost var log1 := wfp.log;
      var _ := wfp.FwpmFilterDestroyEnumHandle0();
      ExitTrace(log0, first, rs, i, log1, wfp.log);
    }
  }

  /** Status `i` of what is left of a script after `n` answers is status `n + i`. */
  lemma StatusesAfter(s: seq<Status>, n: nat, i: nat)
    ensures StatusAt(Drop(s, n), i) == StatusAt(s, n + i)
  {
  }

  lemma DropTwice<T>(s: seq<T>, a: nat, b: nat)
    ensures Drop(Drop(s, a), b) == Drop(s, a + b)
  {
  }

  lemma PairAppended(log: seq<Call>, a: Call, b: Call)
    ensures log + [a] + [b] == log + [a, b]
  {
  }

  /** The calls inside the transaction complete the trace of the add. */
  lemma AddTraceExtends(log2: seq<Call>, log0: seq<Call>, add: Status)
    requires log2 == log0 + [SubLayerAdd(SLS_SUBLAYER_KEY)] + [TransactionBegin]
    ensures log2 + [FilterAdd, if add == ERROR_SUCCESS then TransactionCommit else TransactionAbort]
            == log0 + AddTrace(ERROR_SUCCESS, add)
  {
  }

  /** The inner loop of `list_filters`: pushes the summary of every entry of one page. */
  method SummarizePage(out: seq<FilterSummary>, entries: seq<Filter>) returns (out': seq<FilterSummary>)
    ensures out' == out + Summaries(entries)
  {
    out' := out;
    for j := 0 to |entries|
      invariant out' == out + Summaries(entries[..j])
    {
      assert entries[..j + 1] == entries[..j] + [entries[j]];
      SummariesAppend(entries[..j], [entries[j]]);
      out' := out' + [Summarize(entries[j])];
    }
    assert entries[..|entries|] == entries;
  }

  /** Releasing a fresh buffer restores the set of unreleased buffers. */
  lemma ReleaseRestores(unfreed: set<nat>, buffer: nat)
    requires buffer !in unfreed
    ensures buffer in unfreed + {buffer} && (unfreed + {buffer}) - {buffer} == unfreed
  {
  }

  /** Summarizing the next page extends the accumulator by one page. */
  lemma CollectNext(rs: seq<EnumReply>, i: nat, out: seq<FilterSummary>, entries: seq<Filter>,
                    out': seq<FilterSummary>)
    requires i < |rs| && entries == rs[i].page.entries
    requires out == Collected(rs, i) && out' == out + Summaries(entries)
    ensures out' == Collected(rs, i + 1)
  {
  }

  /** A consumed page adds its request and the release of its buffer to the trace. */
  lemma PageLog(log0: seq<Call>, log1: seq<Call>, log2: seq<Call>, buffer: nat)
    requires log1 == log0 + [FilterEnum(PAGE_SIZE)] && log2 == log1 + [FreeMemory(buffer)]
    ensures log2 == log0 + [FilterEnum(PAGE_SIZE), FreeMemory(buffer)]
  {
  }

  /** The reply the engine gives after `i` replies were taken from the script. */
  lemma ReplyOfDrop(rs: seq<EnumReply>, i: nat)
    ensures ReplyAt(Drop(rs, i), 0) == ReplyAt(rs, i)
    ensures Drop(Drop(rs, i), 1) == Drop(rs, i + 1)
  {
  }

  /** The loop stops at the first reply after which it does not continue. */
  lemma StopsAt(rs: seq<EnumReply>, i: nat)
    requires i <= StopIndex(rs) && !Continues(ReplyAt(rs, i))
    ensures StopIndex(rs) == i
  {
  }

  /** The trace grows by one request and one release per consumed page. */
  lemma NextPageCalls(log0: seq<Call>, first: nat, i: nat, log1: seq<Call>, log2: seq<Call>)
    requires log1 == log0 + PageCalls(first, i)
    requires log2 == log1 + [FilterEnum(PAGE_SIZE), FreeMemory(first + i)]
    ensures log2 == log0 + PageCalls(first, i + 1)
  {
    assert PageCalls(first, i + 1) == PageCalls(first, i) + [FilterEnum(PAGE_SIZE), FreeMemory(first + i)];
  }

  /** The calls on the way out of the loop complete the enumeration's trace. */
  lemma ExitTrace(log0: seq<Call>, first: nat, rs: seq<EnumReply>, i: nat, log1: seq<Call>, log2: seq<Call>)
    requires StopIndex(rs) == i
    requires log1 == log0 + PageCalls(first, i) + [FilterEnum(PAGE_SIZE)]
    requires log2 == log1 + [FilterDestroyEnumHandle]
    ensures log2 == log0 + EnumTrace(rs, first)
  {
  }

  /** A reply after which the loop continues is one of the consumed pages. */
  lemma ContinuesPast(rs: seq<EnumReply>, i: nat)
    requires i <= StopIndex(rs) && Continues(ReplyAt(rs, i))
    ensures i < |rs| && i + 1 <= StopIndex(rs)
  {
  }
}
