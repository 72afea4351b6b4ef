# Rust-WFP engine wrapper, modelled in Dafny

This project models `src/wfp.rs` of Rust-WFP. That file is a thin Rust wrapper over the
Windows Filtering Platform (WFP) management API. It covers three parts of the wrapper:

- `Engine::list_filters`: an enumeration handle is created and pages of at most 128
  filters are fetched until a page is null or empty. Each entry becomes a
  `FilterSummary`, and each page's buffer is released. The handle is destroyed on
  every exit.
- `Engine::add_simple_tcp_filter_v4`: the wrapper registers its constant sublayer,
  then adds an outbound IPv4 connect rule (TCP, one remote port, weight 10). The add
  runs in begin → add → abort-or-commit order.
- The pure mappings: the action type in both directions (`WfpAction`),
  `guid_to_layer_name` with its debug-text fallback, the projection of a filter into
  a `FilterSummary`, and the `"<call> failed: 0x{status:08X}"` error text.

## Layout

- `base.dfy` (`Base`): fixed-width integers as subranges, `Option` and `Result`.
- `fwp.dfy` (`Fwp`): the WFP records the wrapper touches, plus the SDK constants:
  - the records are filters, conditions, values, sublayers and enumeration pages;
  - the constants are layer and condition GUIDs, action types and status codes.
- `guids.dfy` (`Guids`): a GUID as the 128-bit number `GUID::from_u128` takes. It
  defines the upper-case 8-4-4-4-12 debug text of a GUID and a parser that inverts it.
- `platform.dfy` (`Platform`): the engine behind the session handle, as a class.
  - State: the committed filter table, the registered sublayers, a transaction flag with
    its pending table, the identifier counter, the enumeration handle, and the page
    buffers handed out and not yet released.
  - Scripted answers: the status of every status-returning call is the next value of
    `statuses` (success once exhausted). Every `FwpmFilterEnum0` returns the next
    element of `replies`, or a null, empty page once they are exhausted.
  - The engine overrides the script in two cases: a second registration of a
    sublayer key gives `FWP_E_ALREADY_EXISTS`, and a second `FwpmTransactionBegin0`
    gives `FWP_E_TXN_IN_PROGRESS`.
  - Every call is appended to `log`.
- `wfp.dfy` (`Wfp`): `WfpAction`, `FilterSummary`, the action mappings, the layer
  name, the summary projection, the simple TCP rule, and the error type and its text.
- `listing.dfy` (`Listing`): what `list_filters` returns, which calls it makes and
  which buffers it leaves unreleased, each as a function of the engine's answers. It
  also defines `Serve`, an engine that serves a table in PAGE_SIZE pages.
- `adding.dfy` (`Adding`): the same for `add_simple_tcp_filter_v4`. Its
  functions are of the statuses the engine gives, and the atomicity lemma is here.
- `engine.dfy` (`WfpEngine`): the `Engine` class with the two imperative operations.
  Each is proved against the functions of `Listing` and `Adding`. The loop of
  `list_filters` is `EnumeratePages`, one round of it is `FetchPage`, and the inner
  `for` loop over a page is `SummarizePage`.

There are three places where the code and the design description of the repository
disagree. The model follows the code in each:

- The description registers a provider as well as a sublayer, and lets a
  registration failure other than "already exists" propagate. The code registers only
  the sublayer, in every add, and ignores the status entirely.
- The description rejects remote port 0 on add. The code accepts every `u16`.
- The description stops the enumeration at a page with zero entries. The code also
  stops at a null page pointer.

## Model

| member | source | states |
|---|---|---|
| Wfp.ActionType | src/wfp.rs:137-141 | The action type submitted for an action is one of PERMIT, BLOCK, CALLOUT_TERMINATING. Decoding it as the listing does gives the action back, for all three actions. |
| Wfp.DecodeAction | src/wfp.rs:64-68 | An action type is reported as Permit iff it is FWP_ACTION_PERMIT, as Block iff it is FWP_ACTION_BLOCK, and as Callout iff it is neither. |
| Wfp.GuidToLayerName | src/wfp.rs:186-192 | The three known layer GUIDs map to their fixed tokens. |
| Wfp.LayerNameParsesBack | src/wfp.rs:186-192 | For every GUID the name is total and loses nothing. For a known layer it is a token that does not parse as GUID text. For any other GUID it is debug text that parses back to that GUID. |
| Wfp.LayerNameInjective | src/wfp.rs:186-192 | Two layers with the same printed name are the same layer. |
| Wfp.SummaryFields | src/wfp.rs:55-75 | A summary carries the entry's filterId, its display name or "<no name>" when it has none, and a layer name from which the layer GUID can be recovered unless it is a known token. Its action is Permit, Block or Callout exactly as the action type is PERMIT, BLOCK or anything else. |
| Wfp.SimpleTcpFilterV4 | src/wfp.rs:116-153 | The rule the add submits has the given display name, layer ALE_AUTH_CONNECT_V4, the constant sublayer key and weight UINT64 10. Its action decodes to the requested action. It has exactly two conditions: IP protocol == 6 as UINT8, and remote port == the argument as UINT16. |
| Wfp.SimpleTcpRuleRoundTrip | src/wfp.rs:116-153 | The submitted rule, under any identifier the engine gives it, is recognized as a simple TCP rule and reads back as the requested name, port and action. |
| Wfp.AddedFilterSummary | src/wfp.rs:55-75 | The listing summary of a rule the add stored shows its identifier, its name, the token ALE_AUTH_CONNECT_V4 and the requested action. |
| Wfp.Message | src/wfp.rs:46 | The error text is the call name, " failed: 0x" and eight hex digits. |
| Wfp.MessageIdentifiesError | src/wfp.rs:46 | The error text preserves the failing call and the raw status: two errors with the same text are the same error. |
| Guids.HexRoundTrip | src/wfp.rs:191 | Reading back the n upper-case hex digits printed for a value below 16^n gives the value. |
| Guids.GuidText | src/wfp.rs:191 | The debug text of a GUID has 36 characters. |
| Guids.GuidTextRoundTrip | src/wfp.rs:191 | Parsing the debug text of a GUID gives the GUID back. |
| Guids.GuidTextInjective | src/wfp.rs:191 | Distinct GUIDs have distinct debug texts. |
| Listing.StopIndex | src/wfp.rs:39-48 | The loop consumes the replies before the first one that is a failure, a null page or an empty page. It consumes no reply after that one. |
| Listing.Summaries | src/wfp.rs:50-76 | There is one summary per entry. |
| Listing.SummariesAppend | src/wfp.rs:50-76 | The summaries of two runs of entries are the summaries of the first run followed by those of the second. |
| Listing.CollectedSummaries | src/wfp.rs:38-80 | Loop invariant of `list_filters`: after i pages the accumulator holds the summaries of the concatenated entries of those pages, in order. |
| Listing.EntriesAppend | src/wfp.rs:38-80 | The entries of two runs of pages are those of the first run followed by those of the second. |
| Listing.EntryPosition | src/wfp.rs:38-80 | Entry e of page j sits in the concatenation right after the entries of the pages before j: no entry is dropped or duplicated across page boundaries. |
| Listing.PageCalls | src/wfp.rs:42-79 | k consumed pages make 2k calls. |
| Listing.PageCallsAt | src/wfp.rs:42-79 | In the consumed pages' calls, each request is followed at once by the release of that page's buffer. |
| Listing.ListTraceAt | src/wfp.rs:31-86 | After a successful creation the calls are: create, then request and release for each consumed page, then the final request, then destroy. |
| Listing.ListRequestsBounded | src/wfp.rs:35-42 | Every page request asks for 128 entries. A failed creation makes no request at all. |
| Listing.ListDestroysHandleOnce | src/wfp.rs:43-46 | When the handle was created it is destroyed exactly once, as the last call, on the error path and on the normal path (line 83). A handle whose creation failed is never destroyed. |
| Listing.ListReleasesBetweenRequests | src/wfp.rs:79 | Every release comes right after the request whose page it frees and right before the next request. |
| Listing.ListReleasesConsumedPages | src/wfp.rs:79 | The released buffers are exactly those of the consumed pages. |
| Listing.ListReleasesOnce | src/wfp.rs:79 | No buffer is released twice. |
| Listing.ServeStep | src/wfp.rs:39-48 | An engine serving a non-empty table answers one page of at most 128 entries and then the pages of the rest. |
| Listing.ServedStop | src/wfp.rs:48 | Over an engine that serves a table in pages of 128, the loop stops at the end-of-enumeration answer, after ceil(n/128) pages. |
| Listing.ServedPageSizes | src/wfp.rs:42 | Such an engine never returns more than the 128 entries asked for. |
| Listing.ServedEntries | src/wfp.rs:38-80 | The entries of the pages such an engine serves before the end-of-enumeration answer are the table, in engine order. |
| Listing.ListCompleteness | src/wfp.rs:31-86 | Over such an engine `list_filters` returns the summary of every filter exactly once, in engine order. This holds for every table size, including 128 and 129 entries, which take 1 and 2 pages. |
| Adding.AddResult | src/wfp.rs:106-164 | The add returns the engine-assigned identifier iff begin, add and commit all succeed. Otherwise the error names begin, add or commit with that call's raw, non-success status. A later call is named only when every earlier one succeeded, so the error is the first failing call. |
| Adding.AddTrace | src/wfp.rs:103-163 | The first two calls are always sublayer registration and begin. If begin failed there are no more calls. Otherwise there are exactly two more: the filter add, then abort if the add failed or commit if it succeeded, never both. |
| Adding.RegisterSlsSubLayer | src/wfp.rs:93-103 | After registration the constant sublayer is present if it was before or if the engine accepted it. A new registration stores the wrapper's record ("SLS SubLayer", weight 0x7FFF). A second registration changes nothing. Every other key keeps its record. |
| Adding.AddIsAtomic | src/wfp.rs:105-164 | The committed table is unchanged unless begin, add and commit all succeeded. Then it gains exactly one rule, under the returned identifier, and keeps every other rule. The new rule reads back as the requested name, port and action and lists as the requested action on ALE_AUTH_CONNECT_V4. |
| Adding.AddedRuleIsListed | src/wfp.rs:31-164 | After a successful add, an engine that serves every rule of the committed table in pages of 128 lists the new rule. Its summary shows the returned identifier, the name, ALE_AUTH_CONNECT_V4 and the requested action. |
| WfpEngine.Engine.constructor | src/wfp.rs:28 | The wrapper holds the open session it is given. |
| WfpEngine.Engine.ListFilters | src/wfp.rs:31-86 | The result is `ListResult` of the creation status and the page replies. The engine calls are `ListTrace`. The only buffer left unreleased is `Unreleased`. Exactly the consumed statuses and replies are used up. The filter table, the sublayers and the transaction state are unchanged. |
| WfpEngine.Engine.EnumeratePages | src/wfp.rs:38-84 | The loop with the handle open: the result, calls, buffers and answers used are those of the enumeration functions, and the handle is closed on both exits. |
| WfpEngine.Engine.FetchPage | src/wfp.rs:40-79 | One round: the reply requested is the next one from the engine. If the loop continues, the page's summaries are appended and its buffer is released. Otherwise this is the reply at the stop index, and nothing is summarized or released. |
| WfpEngine.Engine.ConsumePage | src/wfp.rs:50-79 | Summarizing a page appends one summary per entry, in order. The page's buffer is then released. |
| WfpEngine.Engine.CloseEnumeration | src/wfp.rs:83 | Destroying the handle completes the call trace and closes the handle. |
| WfpEngine.SummarizePage | src/wfp.rs:50-76 | The inner loop appends the summaries of the page's entries, in order. |
| WfpEngine.Engine.AddSimpleTcpFilterV4 | src/wfp.rs:90-166 | The result is `AddResult` of the engine's statuses, and the committed table is `TableAfterAdd`. The sublayers are `RegisterSlsSubLayer`. The calls are `AddTrace`. The transaction flag is as it was before the call, so the wrapper never leaves a transaction open. The identifier counter advances only for a successful add. |
| WfpEngine.Engine.AddInTransaction | src/wfp.rs:155-164 | Inside the transaction: add the rule, then abort on failure or commit on success. The transaction is over afterwards. |
| Platform.Platform.FwpmSubLayerAdd0 | src/wfp.rs:103 | Engine assumption: a key that is already registered gives FWP_E_ALREADY_EXISTS and changes nothing. Otherwise the scripted status decides whether the sublayer is stored. |
| Platform.Platform.FwpmTransactionBegin0 | src/wfp.rs:106 | Engine assumption: beginning while a transaction is open gives FWP_E_TXN_IN_PROGRESS. A successful begin opens a transaction on a copy of the committed table. |
| Platform.Platform.FwpmFilterAdd0 | src/wfp.rs:156 | Engine assumption: on success the filter is stored in the transaction's table under a fresh identifier, which is returned. On failure nothing changes. |
| Platform.Platform.FwpmTransactionAbort0 | src/wfp.rs:158 | Engine assumption: the transaction's changes are discarded. |
| Platform.Platform.FwpmTransactionCommit0 | src/wfp.rs:162 | Engine assumption: on success the transaction's table becomes the committed table, and either way the transaction ends. |
| Platform.Platform.FwpmFilterCreateEnumHandle0 | src/wfp.rs:35 | Engine assumption: the handle is open iff the scripted status is success. |
| Platform.Platform.FwpmFilterEnum0 | src/wfp.rs:42 | Engine assumption: the next scripted reply is returned. A successful non-null page is handed out in a fresh buffer that must be released. |
| Platform.Platform.FwpmFreeMemory0 | src/wfp.rs:79 | Engine assumption: the buffer is released. |
| Platform.Platform.FwpmFilterDestroyEnumHandle0 | src/wfp.rs:45 | Engine assumption: the handle is closed whatever the status. |

## Left out

- The calls made by `src/main.rs` are not modelled, because they do not exist in
  `src/wfp.rs` (only a TODO at lines 168-170). These are `snapshot`,
  `update_simple_tcp_filter_v4`, `delete_filter_by_id`, `export_owned_filters` and
  `import_filters`, plus the `owned_by_app` and `remote_port` fields of
  `FilterSummary`. There is no ownership predicate or provider key to model.
- The user interface in `src/main.rs` and the manifest embedding in `build.rs` are not
  modelled: they hold no filtering logic.
- `Engine::open` and `Drop` (session open and close, `CloseHandle`) are foreign calls
  and are not modelled. An `Engine` is constructed over an engine that is already open.
- UTF-16 conversion of names (`U16CStr::to_string_lossy`, `U16CString::from_str`) is
  not modelled. Names are Dafny strings.
- Pointer offsetting and dereferencing of the page array are not modelled. A page is
  a sequence of filter records.
- WfpEngine.Engine.AddSimpleTcpFilterV4: a name with an interior NUL makes the source
  panic after the transaction has begun (src/wfp.rs:109). The model makes "no NUL in
  the name" a precondition instead of modelling the panic and the transaction it
  leaves open.
- WfpEngine.Engine.ListFilters: requires that no enumeration handle is open. The
  engine model tracks a single handle, and every handle the wrapper creates is
  destroyed before it returns.
- Filter identifiers are unbounded naturals. Exhaustion of the 64-bit identifier
  space is not modelled.
- The engine's scripted page replies are not derived from its committed filter table.
  `WfpEngine.Engine.ListFilters` is proved against whatever pages the engine answers.
  Over a table served in order, completeness (`Listing.ListCompleteness`) and "a
  committed add is then listed" (`Adding.AddedRuleIsListed`) are stated for the
  reference pager `Serve`. No method call composes an add with a later listing.
- The engine's page size is not enforced against the requested count in
  `FwpmFilterEnum0`. `Listing.ServedPageSizes` states it for the reference engine
  `Serve` only.
- Engine semantics that are assumptions of the model:
  - a commit ends the transaction whether or not it succeeds;
  - the status of the abort and of the destroy calls is ignored, as the source
    ignores it;
  - only the two overriding statuses named above are produced by the engine itself.
- A successful, non-null page with count 0 ends the loop without being released,
  because the source breaks before `FwpmFreeMemory0`. The model reproduces this as
  `Listing.Unreleased`. Whether the engine can return such a page is not modelled.
- The GUID debug text follows the windows crate's `Debug` implementation: upper-case
  8-4-4-4-12 without braces. That crate is not part of this model.
- The numeric values of the SDK constants are not read from the SDK headers, which are
  not part of this model. These are the layer and condition GUIDs, the action types
  and the status codes. The proofs use only the fact that the constants are distinct.
- Concurrency between sessions and the engine's transaction isolation are not
  modelled. The source does nothing about either.
- `anyhow` error wrapping is reduced to the failing call and its raw status. The
  message text is modelled, but the error chain is not.
