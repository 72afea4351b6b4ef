/** What `Engine::list_filters` returns and which engine calls it makes, as functions of
    the engine's answers: the status of the enumeration-handle creation and the
    sequence of page replies. */
module Listing {
  import opened Base
  import opened Fwp
  import opened Platform
  import opened Wfp

  /** The number of entries the loop asks for in every `FwpmFilterEnum0` request. */
  const PAGE_SIZE: nat := 128

  /** A reply after which the loop asks for another page: a successful page with a
      non-null pointer and a non-zero count. */
  predicate Continues(rep: EnumReply) {
    rep.status == ERROR_SUCCESS && !rep.page.isNull && |rep.page.entries| > 0
  }

  /** The number of pages the loop consumes: the index of the first reply that is a
      failure, a null page or an empty page. */
  function StopIndex(rs: seq<EnumReply>): (k: nat)
    ensures k <= |rs|
    ensures forall j :: 0 <= j < k ==> Continues(rs[j])
    ensures k < |rs| ==> !Continues(rs[k])
  {
    if |rs| == 0 || !Continues(rs[0]) then 0 else 1 + StopIndex(rs[1..])
  }

  /** The entries of the given pages, page after page, each page in its own order. */
  function Entries(rs: seq<EnumReply>): seq<Filter> {
    if |rs| == 0 then [] else Entries(rs[..|rs| - 1]) + rs[|rs| - 1].page.entries
  }

  /** The summaries of the given filters, in order. */
  function Summaries(fs: seq<Filter>): (ss: seq<FilterSummary>)
    ensures |ss| == |fs|
  {
    seq(|fs|, k requires 0 <= k < |fs| => Summarize(fs[k]))
  }

  /** Summary `i` is that of filter `i`: nothing is reordered, dropped or repeated. */
  lemma SummariesAt(fs: seq<Filter>, i: nat)
    requires i < |fs|
    ensures Summaries(fs)[i] == Summarize(fs[i])
  {
  }

  /** What the loop's accumulator holds once `i` pages are consumed: the summaries of
      their entries, page after page. */
  function Collected(rs: seq<EnumReply>, i: nat): seq<FilterSummary>
    requires i <= |rs|
  {
    if i == 0 then [] else Collected(rs, i - 1) + Summaries(rs[i - 1].page.entries)
  }

  /** The accumulator is the summaries of the entries of the consumed pages. */
  lemma {:induction false} CollectedSummaries(rs: seq<EnumReply>, i: nat)
    requires i <= |rs|
    ensures Collected(rs, i) == Summaries(Entries(rs[..i]))
  {
    if i > 0 {
      CollectedSummaries(rs, i - 1);
      assert rs[..i][..i - 1] == rs[..i - 1];
      SummariesAppend(Entries(rs[..i - 1]), rs[i - 1].page.entries);
    }
  }

  /** The result of `list_filters`: the creation failure, or the failure of the reply
      that ends the loop, or the summaries of every entry of every page before the
      first empty or null page. */
  function ListResult(createStatus: Status, rs: seq<EnumReply>): Result<seq<FilterSummary>, WfpError> {
    if createStatus != ERROR_SUCCESS then Err(Failed(FwpmFilterCreateEnumHandle0, createStatus))
    else
      var k := StopIndex(rs);
      var last := ReplyAt(rs, k);
      if last.status != ERROR_SUCCESS then Err(Failed(FwpmFilterEnum0, last.status))
      else Ok(Summaries(Entries(rs[..k])))
  }

  /** The calls for `k` consumed pages, starting with buffer number `first`: each
      request for a page is followed at once by the release of that page's buffer. */
  function PageCalls(first: nat, k: nat): (t: seq<Call>)
    ensures |t| == 2 * k
  {
    if k == 0 then [] else PageCalls(first, k - 1) + [FilterEnum(PAGE_SIZE), FreeMemory(first + k - 1)]
  }

  /** Call `i` of the consumed pages: even positions request, odd ones release. */
  lemma {:induction false} PageCallsAt(first: nat, k: nat, i: nat)
    requires i < 2 * k
    ensures PageCalls(first, k)[i] == if i % 2 == 0 then FilterEnum(PAGE_SIZE) else FreeMemory(first + i / 2)
  {
    if i < 2 * (k - 1) {
      PageCallsAt(first, k - 1, i);
    }
  }

  /** The calls `list_filters` makes: create the handle; if that failed, nothing more.
      Otherwise the consumed pages, then the request whose reply ends the loop, then
      the destruction of the handle (on the failure path and on the normal path). */
  function ListTrace(createStatus: Status, rs: seq<EnumReply>, first: nat): seq<Call> {
    if createStatus != ERROR_SUCCESS then [FilterCreateEnumHandle]
    else [FilterCreateEnumHandle] + EnumTrace(rs, first)
  }

  /** The calls made once the handle is open. */
  function EnumTrace(rs: seq<EnumReply>, first: nat): seq<Call> {
    PageCalls(first, StopIndex(rs)) + [FilterEnum(PAGE_SIZE), FilterDestroyEnumHandle]
  }

  /** The buffers `list_filters` leaves unreleased: the buffer of a successful, non-null
      page that ends the loop because its count is 0. */
  function Unreleased(createStatus: Status, rs: seq<EnumReply>, first: nat): set<nat> {
    var last := ReplyAt(rs, StopIndex(rs));
    if createStatus == ERROR_SUCCESS && last.status == ERROR_SUCCESS && !last.page.isNull
    then {first + StopIndex(rs)} else {}
  }

  lemma SummariesAppend(a: seq<Filter>, b: seq<Filter>)
    ensures Summaries(a + b) == Summaries(a) + Summaries(b)
  {
    assert forall k | 0 <= k < |a + b| :: Summaries(a + b)[k] == (Summaries(a) + Summaries(b))[k];
  }

  lemma {:induction false} EntriesAppend(a: seq<EnumReply>, b: seq<EnumReply>)
    ensures Entries(a + b) == Entries(a) + Entries(b)
    decreases |b|
  {
    if b != [] {
      var b' := b[..|b| - 1];
      assert (a + b)[..|a + b| - 1] == a + b';
      assert (a + b)[|a + b| - 1] == b[|b| - 1];
      EntriesAppend(a, b');
      assert Entries(b) == Entries(b') + b[|b| - 1].page.entries;
    } else {
      assert a + b == a;
    }
  }

  /** No entry is dropped or duplicated across page boundaries: entry `e` of page `j`
      sits in the concatenation right after the entries of the pages before `j`. */
  lemma {:induction false} EntryPosition(rs: seq<EnumReply>, j: nat, e: nat)
    requires j < |rs| && e < |rs[j].page.entries|
    ensures |Entries(rs[..j])| + e < |Entries(rs)|
    ensures Entries(rs)[|Entries(rs[..j])| + e] == rs[j].page.entries[e]
  {
    assert rs == rs[..j] + [rs[j]] + rs[j + 1..];
    EntriesAppend(rs[..j] + [rs[j]], rs[j + 1..]);
    assert (rs[..j] + [rs[j]])[..j] == rs[..j];
  }

  /** The `i`-th call of a listing whose handle was created. */
  lemma ListTraceAt(rs: seq<EnumReply>, first: nat, i: nat)
    requires i < |ListTrace(ERROR_SUCCESS, rs, first)|
    ensures var t, k := ListTrace(ERROR_SUCCESS, rs, first), StopIndex(rs);
      && |t| == 2 * k + 3
      && t[i] == if i == 0 then FilterCreateEnumHandle
                 else if i <= 2 * k then
                   (if i % 2 == 1 then FilterEnum(PAGE_SIZE) else FreeMemory(first + (i - 1) / 2))
                 else if i == 2 * k + 1 then FilterEnum(PAGE_SIZE)
                 else FilterDestroyEnumHandle
  {
    var t, k := ListTrace(ERROR_SUCCESS, rs, first), StopIndex(rs);
    var p := PageCalls(first, k);
    assert t == [FilterCreateEnumHandle] + (p + [FilterEnum(PAGE_SIZE), FilterDestroyEnumHandle]);
    if 1 <= i <= 2 * k {
      assert t[i] == p[i - 1];
      PageCallsAt(first, k, i - 1);
    }
  }

  /** Every page request asks for PAGE_SIZE entries, and a failed creation makes no
      request at all. */
  lemma ListRequestsBounded(createStatus: Status, rs: seq<EnumReply>, first: nat)
    ensures var t := ListTrace(createStatus, rs, first);
      && t[0] == FilterCreateEnumHandle
      && (createStatus != ERROR_SUCCESS ==> |t| == 1)
      && forall i :: 0 <= i < |t| && t[i].FilterEnum? ==> t[i].requested == PAGE_SIZE
  {
    var t := ListTrace(createStatus, rs, first);
    if createStatus == ERROR_SUCCESS {
      forall i | 0 <= i < |t| && t[i].FilterEnum?
        ensures t[i].requested == PAGE_SIZE
      {
        ListTraceAt(rs, first, i);
      }
    }
  }

  /** Once created, the handle is destroyed exactly once, as the last call, on the
      failure path and on the normal path alike; it is never destroyed when its
      creation failed. */
  lemma ListDestroysHandleOnce(createStatus: Status, rs: seq<EnumReply>, first: nat)
    ensures var t := ListTrace(createStatus, rs, first);
      forall i :: 0 <= i < |t| ==>
        (t[i] == FilterDestroyEnumHandle <==> createStatus == ERROR_SUCCESS && i == |t| - 1)
  {
    var t := ListTrace(createStatus, rs, first);
    if createStatus == ERROR_SUCCESS {
      forall i | 0 <= i < |t|
        ensures t[i] == FilterDestroyEnumHandle <==> i == |t| - 1
      {
        ListTraceAt(rs, first, i);
      }
    }
  }

  /** Every release of a buffer comes right after the request that returned its page
      and right before the next request. */
  lemma ListReleasesBetweenRequests(createStatus: Status, rs: seq<EnumReply>, first: nat)
    ensures var t := ListTrace(createStatus, rs, first);
      forall i :: 0 <= i < |t| && t[i].FreeMemory? ==>
        1 <= i < |t| - 1 && t[i - 1] == FilterEnum(PAGE_SIZE) && t[i + 1].FilterEnum? &&
        t[i].buffer == first + (i - 1) / 2
  {
    var t := ListTrace(createStatus, rs, first);
    if createStatus == ERROR_SUCCESS {
      forall i | 0 <= i < |t| && t[i].FreeMemory?
        ensures 1 <= i < |t| - 1 && t[i - 1] == FilterEnum(PAGE_SIZE) && t[i + 1].FilterEnum?
        ensures t[i].buffer == first + (i - 1) / 2
      {
        ListTraceAt(rs, first, i);
        assert i >= 1;
        ListTraceAt(rs, first, i - 1);
        ListTraceAt(rs, first, i + 1);
      }
    }
  }

  /** The released buffers are exactly those of the consumed pages. */
  lemma ListReleasesConsumedPages(createStatus: Status, rs: seq<EnumReply>, first: nat)
    ensures var t := ListTrace(createStatus, rs, first);
      forall b: nat :: FreeMemory(b) in t <==>
        createStatus == ERROR_SUCCESS && first <= b < first + StopIndex(rs)
  {
    var t := ListTrace(createStatus, rs, first);
    if createStatus == ERROR_SUCCESS {
      var k := StopIndex(rs);
      forall i | 0 <= i < |t| && t[i].FreeMemory?
        ensures first <= t[i].buffer < first + k
      {
        ListTraceAt(rs, first, i);
      }
      forall b: nat | first <= b < first + k
        ensures FreeMemory(b) in t
      {
        ListTraceAt(rs, first, 2 * (b - first) + 2);
      }
    }
  }

  /** No buffer is released twice. */
  lemma ListReleasesOnce(createStatus: Status, rs: seq<EnumReply>, first: nat)
    ensures var t := ListTrace(createStatus, rs, first);
      forall i, j :: 0 <= i < j < |t| && t[i].FreeMemory? && t[j].FreeMemory? ==> t[i] != t[j]
  {
    var t := ListTrace(createStatus, rs, first);
    if createStatus == ERROR_SUCCESS {
      forall i, j | 0 <= i < j < |t| && t[i].FreeMemory? && t[j].FreeMemory?
        ensures t[i] != t[j]
      {
        ListTraceAt(rs, first, i);
        ListTraceAt(rs, first, j);
        assert i % 2 == 0 && j % 2 == 0;
        assert (i - 1) / 2 < (j - 1) / 2;
      }
    }
  }

  function Min(a: nat, b: nat): nat {
    if a <= b then a else b
  }

  /** The pages an engine that holds the filters `fs`, in its enumeration order, hands
      out for requests of PAGE_SIZE entries: full pages, a last partial page, and then
      the answer that there are no more entries. */
  function Serve(fs: seq<Filter>): (rs: seq<EnumReply>)
    decreases |fs|
  {
    if |fs| == 0 then [END_OF_ENUM]
    else
      var n := Min(PAGE_SIZE, |fs|);
      [EnumReply(ERROR_SUCCESS, Page(false, fs[..n]))] + Serve(fs[n..])
  }

  /** The number of pages that hold `n` entries. */
  function PageCount(n: nat): nat {
    (n + PAGE_SIZE - 1) / PAGE_SIZE
  }

  /** A non-empty table is served as one page of at most PAGE_SIZE entries followed
      by the pages of the rest. */
  lemma ServeStep(fs: seq<Filter>)
    requires |fs| > 0
    ensures var n := Min(PAGE_SIZE, |fs|);
      && Serve(fs) == [EnumReply(ERROR_SUCCESS, Page(false, fs[..n]))] + Serve(fs[n..])
      && StopIndex(Serve(fs)) == 1 + StopIndex(Serve(fs[n..]))
  {
    var n := Min(PAGE_SIZE, |fs|);
    assert Continues(Serve(fs)[0]);
    assert Serve(fs)[1..] == Serve(fs[n..]);
  }

  /** The loop stops at the end-of-enumeration answer, after PageCount pages. */
  lemma {:induction false} ServedStop(fs: seq<Filter>)
    ensures var rs := Serve(fs);
      StopIndex(rs) == PageCount(|fs|) < |rs| && rs[StopIndex(rs)] == END_OF_ENUM
    decreases |fs|
  {
    if |fs| > 0 {
      var n := Min(PAGE_SIZE, |fs|);
      ServeStep(fs);
      ServedStop(fs[n..]);
    }
  }

  /** No served page holds more than the PAGE_SIZE entries asked for. */
  lemma {:induction false} ServedPageSizes(fs: seq<Filter>)
    ensures forall j :: 0 <= j < |Serve(fs)| ==> |Serve(fs)[j].page.entries| <= PAGE_SIZE
    decreases |fs|
  {
    if |fs| > 0 {
      var n := Min(PAGE_SIZE, |fs|);
      ServeStep(fs);
      ServedPageSizes(fs[n..]);
    }
  }

  /** The entries of the pages before the end-of-enumeration answer are the table. */
  lemma {:induction false} ServedEntries(fs: seq<Filter>)
    ensures StopIndex(Serve(fs)) < |Serve(fs)|
    ensures Entries(Serve(fs)[..StopIndex(Serve(fs))]) == fs
    decreases |fs|
  {
    ServedStop(fs);
    if |fs| > 0 {
      var n := Min(PAGE_SIZE, |fs|);
      var head := EnumReply(ERROR_SUCCESS, Page(false, fs[..n]));
      var tail := Serve(fs[n..]);
      ServeStep(fs);
      ServedEntries(fs[n..]);
      var k := StopIndex(Serve(fs));
      assert Serve(fs)[..k] == [head] + tail[..k - 1];
      EntriesAppend([head], tail[..k - 1]);
      assert Entries([head]) == fs[..n] by {
        assert [head][..0] == [];
      }
      assert fs == fs[..n] + fs[n..];
    }
  }

  /** Enumeration completeness: over an engine that serves its filters in pages of
      PAGE_SIZE, the listing is every filter exactly once, in engine order, whatever
      the number of filters (a multiple of PAGE_SIZE, one more, or none); it takes
      PageCount requests with entries plus the final empty one. */
  lemma ListCompleteness(fs: seq<Filter>)
    ensures ListResult(ERROR_SUCCESS, Serve(fs)) == Ok(Summaries(fs))
    ensures StopIndex(Serve(fs)) == PageCount(|fs|)
    ensures PageCount(PAGE_SIZE) == 1 && PageCount(PAGE_SIZE + 1) == 2
  {
    ServedStop(fs);
    ServedEntries(fs);
  }
}
