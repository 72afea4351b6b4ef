/** An abstract Windows Filtering Platform engine, as seen through one open session.

    The engine keeps the committed filter table, the registered sublayers, the state of
    the session's transaction and of one filter enumeration. What it answers is not
    computed here: every status-returning call takes the next value of the scripted
    `statuses` (success once the script is exhausted), and every `FwpmFilterEnum0` takes
    the next value of `replies` (a null, empty page once exhausted). The engine overrides
    a scripted answer only where its own state forces a failure: registering a sublayer
    key that exists, or beginning a second transaction. Every call is appended to `log`. */
module Platform {
  import opened Base
  import opened Guids
  import opened Fwp

  datatype Call =
    | SubLayerAdd(key: Guid)
    | TransactionBegin
    | FilterAdd
    | TransactionAbort
    | TransactionCommit
    | FilterCreateEnumHandle
    | FilterEnum(requested: nat)
    | FreeMemory(buffer: nat)
    | FilterDestroyEnumHandle

  /** The `i`-th scripted status, success past the end of the script. */
  function StatusAt(s: seq<Status>, i: nat): Status {
    if i < |s| then s[i] else ERROR_SUCCESS
  }

  /** The `i`-th scripted page reply, the end of the enumeration past the end of the script. */
  function ReplyAt(rs: seq<EnumReply>, i: nat): EnumReply {
    if i < |rs| then rs[i] else END_OF_ENUM
  }

  /** What is left of a script after `n` answers were taken from it. */
  function Drop<T>(s: seq<T>, n: nat): (r: seq<T>)
    ensures |r| == if n <= |s| then |s| - n else 0
  {
    if n <= |s| then s[n..] else []
  }

  /** Every filter is stored under its own identifier, and identifiers below `nextId`
      are the only ones handed out. */
  ghost predicate TableValid(t: map<FilterId, Filter>, nextId: FilterId) {
    forall id :: id in t ==> id < nextId && t[id].filterId == id
  }

  class Platform {
    var filters: map<FilterId, Filter>
    var subLayers: map<Guid, SubLayer>
    var txnOpen: bool
    /** The filter table as the open transaction sees it. */
    var pending: map<FilterId, Filter>
    var nextId: FilterId
    var enumOpen: bool
    var statuses: seq<Status>
    var replies: seq<EnumReply>
    /** Number of `FwpmFilterEnum0` calls so far; call `k` hands out buffer `k`. */
    var served: nat
    /** Buffers handed out and not yet released with `FwpmFreeMemory0`. */
    var unfreed: set<nat>
    var log: seq<Call>

    ghost predicate Valid()
      reads this
    {
      TableValid(filters, nextId) &&
      (txnOpen ==> TableValid(pending, nextId)) &&
      (forall b :: b in unfreed ==> b < served)
    }

    constructor (filters: map<FilterId, Filter>, subLayers: map<Guid, SubLayer>, nextId: FilterId,
                 statuses: seq<Status>, replies: seq<EnumReply>)
      requires TableValid(filters, nextId)
      ensures Valid()
      ensures this.filters == filters && this.subLayers == subLayers && this.nextId == nextId
      ensures this.statuses == statuses && this.replies == replies
      ensures !txnOpen && !enumOpen && pending == map[] && served == 0 && unfreed == {} && log == []
    {
      this.filters := filters;
      this.subLayers := subLayers;
      this.nextId := nextId;
      this.statuses := statuses;
      this.replies := replies;
      txnOpen, enumOpen := false, false;
      pending := map[];
      served, unfreed, log := 0, {}, [];
    }

    method NextStatus() returns (st: Status)
      modifies this`statuses
      ensures st == StatusAt(old(statuses), 0) && statuses == Drop(old(statuses), 1)
    {
      st := StatusAt(statuses, 0);
      statuses := Drop(statuses, 1);
    }

    /** `FwpmSubLayerAdd0`: the key is registered unless it already is. */
    method FwpmSubLayerAdd0(sub: SubLayer) returns (st: Status)
      requires Valid()
      modifies this
      ensures Valid()
      ensures st == if sub.subLayerKey in old(subLayers) then FWP_E_ALREADY_EXISTS
                    else StatusAt(old(statuses), 0)
      ensures subLayers == if st == ERROR_SUCCESS then old(subLayers)[sub.subLayerKey := sub]
                           else old(subLayers)
      ensures statuses == Drop(old(statuses), 1)
      ensures log == old(log) + [SubLayerAdd(sub.subLayerKey)]
      ensures unchanged(this`filters, this`txnOpen, this`pending, this`nextId)
      ensures unchanged(this`enumOpen, this`replies, this`served, this`unfreed)
    {
      st := NextStatus();
      if sub.subLayerKey in subLayers {
        st := FWP_E_ALREADY_EXISTS;
      }
      if st == ERROR_SUCCESS {
        subLayers := subLayers[sub.subLayerKey := sub];
      }
      log := log + [SubLayerAdd(sub.subLayerKey)];
    }

    /** `FwpmTransactionBegin0`: the transaction starts from the committed table. */
    method FwpmTransactionBegin0() returns (st: Status)
      requires Valid()
      modifies this
      ensures Valid()
      ensures st == if old(txnOpen) then FWP_E_TXN_IN_PROGRESS else StatusAt(old(statuses), 0)
      ensures txnOpen == (old(txnOpen) || st == ERROR_SUCCESS)
      ensures pending == if st == ERROR_SUCCESS then filters else old(pending)
      ensures statuses == Drop(old(statuses), 1)
      ensures log == old(log) + [TransactionBegin]
      ensures unchanged(this`filters, this`subLayers, this`nextId)
      ensures unchanged(this`enumOpen, this`replies, this`served, this`unfreed)
    {
      st := NextStatus();
      if txnOpen {
        st := FWP_E_TXN_IN_PROGRESS;
      }
      if st == ERROR_SUCCESS {
        txnOpen := true;
        pending := filters;
      }
      log := log + [TransactionBegin];
    }

    /** `FwpmFilterAdd0` inside the open transaction: on success the filter is stored in
        the transaction's table under a new identifier, which is written to `id`. */
    method FwpmFilterAdd0(f: Filter) returns (st: Status, id: FilterId)
      requires Valid() && txnOpen
      modifies this
      ensures Valid() && txnOpen
      ensures st == StatusAt(old(statuses), 0)
      ensures st == ERROR_SUCCESS ==>
                id == old(nextId) && nextId == old(nextId) + 1 &&
                pending == old(pending)[id := f.(filterId := id)]
      ensures st != ERROR_SUCCESS ==> id == 0 && nextId == old(nextId) && pending == old(pending)
      ensures statuses == Drop(old(statuses), 1)
      ensures log == old(log) + [FilterAdd]
      ensures unchanged(this`filters, this`subLayers)
      ensures unchanged(this`enumOpen, this`replies, this`served, this`unfreed)
    {
      st := NextStatus();
      if st == ERROR_SUCCESS {
        id := nextId;
        pending := pending[id := f.(filterId := id)];
        nextId := nextId + 1;
      } else {
        id := 0;
      }
      log := log + [FilterAdd];
    }

    /** `FwpmTransactionAbort0`: the transaction's changes are discarded. */
    method FwpmTransactionAbort0() returns (st: Status)
      requires Valid() && txnOpen
      modifies this
      ensures Valid()
      ensures st == StatusAt(old(statuses), 0)
      ensures !txnOpen && pending == map[]
      ensures statuses == Drop(old(statuses), 1)
      ensures log == old(log) + [TransactionAbort]
      ensures unchanged(this`filters, this`subLayers, this`nextId)
      ensures unchanged(this`enumOpen, this`replies, this`served, this`unfreed)
    {
      st := NextStatus();
      txnOpen := false;
      pending := map[];
      log := log + [TransactionAbort];
    }

    /** `FwpmTransactionCommit0`: on success the transaction's table becomes the
        committed table; either way the transaction is over. */
    method FwpmTransactionCommit0() returns (st: Status)
      requires Valid() && txnOpen
      modifies this
      ensures Valid()
      ensures st == StatusAt(old(statuses), 0)
      ensures filters == if st == ERROR_SUCCESS then old(pending) else old(filters)
      ensures !txnOpen && pending == map[]
      ensures statuses == Drop(old(statuses), 1)
      ensures log == old(log) + [TransactionCommit]
      ensures unchanged(this`subLayers, this`nextId)
      ensures unchanged(this`enumOpen, this`replies, this`served, this`unfreed)
    {
      st := NextStatus();
      if st == ERROR_SUCCESS {
        filters := pending;
      }
      txnOpen := false;
      pending := map[];
      log := log + [TransactionCommit];
    }

    /** `FwpmFilterCreateEnumHandle0` with no enumeration template (all filters). */
    method FwpmFilterCreateEnumHandle0() returns (st: Status)
      requires Valid() && !enumOpen
      modifies this
      ensures Valid()
      ensures st == StatusAt(old(statuses), 0)
      ensures enumOpen == (st == ERROR_SUCCESS)
      ensures statuses == Drop(old(statuses), 1)
      ensures log == old(log) + [FilterCreateEnumHandle]
      ensures unchanged(this`filters, this`subLayers, this`txnOpen, this`pending, this`nextId)
      ensures unchanged(this`replies, this`served, this`unfreed)
    {
      st := NextStatus();
      enumOpen := st == ERROR_SUCCESS;
      log := log + [FilterCreateEnumHandle];
    }

    /** `FwpmFilterEnum0(requested)`: the next scripted page. A successful non-null page
        is a buffer, numbered by the call, that the caller must release. */
    method FwpmFilterEnum0(requested: nat) returns (st: Status, page: Page, buffer: nat)
      requires Valid() && enumOpen
      modifies this
      ensures Valid() && enumOpen
      ensures EnumReply(st, page) == ReplyAt(old(replies), 0)
      ensures buffer == old(served) && served == old(served) + 1
      ensures unfreed == if st == ERROR_SUCCESS && !page.isNull then old(unfreed) + {buffer}
                         else old(unfreed)
      ensures replies == Drop(old(replies), 1)
      ensures log == old(log) + [FilterEnum(requested)]
      ensures unchanged(this`filters, this`subLayers, this`txnOpen, this`pending, this`nextId)
      ensures unchanged(this`statuses)
    {
      var reply := ReplyAt(replies, 0);
      st, page := reply.status, reply.page;
      replies := Drop(replies, 1);
      buffer := served;
      served := served + 1;
      if st == ERROR_SUCCESS && !page.isNull {
        unfreed := unfreed + {buffer};
      }
      log := log + [FilterEnum(requested)];
    }

    /** `FwpmFreeMemory0` on a buffer the engine handed out. */
    method FwpmFreeMemory0(buffer: nat)
      requires Valid() && buffer in unfreed
      modifies this
      ensures Valid()
      ensures unfreed == old(unfreed) - {buffer}
      ensures log == old(log) + [FreeMemory(buffer)]
      ensures unchanged(this`filters, this`subLayers, this`txnOpen, this`pending, this`nextId)
      ensures unchanged(this`enumOpen, this`statuses, this`replies, this`served)
    {
      unfreed := unfreed - {buffer};
      log := log + [FreeMemory(buffer)];
    }

    /** `FwpmFilterDestroyEnumHandle0`: the handle is gone whatever the status. */
    method FwpmFilterDestroyEnumHandle0() returns (st: Status)
      requires Valid() && enumOpen
      modifies this
      ensures Valid()
      ensures st == StatusAt(old(statuses), 0)
      ensures !enumOpen
      ensures statuses == Drop(old(statuses), 1)
      ensures log == old(log) + [FilterDestroyEnumHandle]
      ensures unchanged(this`filters, this`subLayers, this`txnOpen, this`pending, this`nextId)
      ensures unchanged(this`replies, this`served, this`unfreed)
    {
      st := NextStatus();
      enumOpen := false;
      log := log + [FilterDestroyEnumHandle];
    }
  }
}
