/** The Windows Filtering Platform records and constants the wrapper exchanges with the
    engine: `FWPM_FILTER0`, `FWPM_SUBLAYER0`, `FWPM_FILTER_CONDITION0`, `FWP_VALUE0`, the
    action types, the layer and condition keys, and the status codes the engine model
    produces itself. Values are those of the Windows SDK headers fwpmu.h and fwptypes.h;
    the proofs rely only on the constants being pairwise distinct. */
module Fwp {
  import opened Base
  import opened Guids

  /** The `u32` status every `Fwpm*` call returns; 0 is success. */
  type Status = u32

  const ERROR_SUCCESS: Status := 0
  const FWP_E_ALREADY_EXISTS: Status := 0x8032_0009
  const FWP_E_TXN_IN_PROGRESS: Status := 0x8032_000D

  /** The engine-assigned 64-bit identifier of a filter (see README: exhaustion of the
      64-bit space is not modelled, so identifiers are naturals). */
  type FilterId = nat

  const FWPM_LAYER_ALE_AUTH_CONNECT_V4: Guid := 0xc38d57d1_05a7_4c33_904f_7fbceee60e82
  const FWPM_LAYER_ALE_AUTH_CONNECT_V6: Guid := 0x4a72393b_319f_44bc_84c3_ba54dcb3b6b4
  const FWPM_LAYER_ALE_FLOW_ESTABLISHED_V4: Guid := 0xaf80470a_5596_4c13_9992_539e6fe57967

  const FWPM_CONDITION_IP_PROTOCOL: Guid := 0x3971ef2b_623e_4f9a_8cb1_6e79b806b9a7
  const FWPM_CONDITION_IP_REMOTE_PORT: Guid := 0xc35a604d_d22b_4e1a_91b4_68f674ee674b

  /** `FWP_ACTION_TYPE` values: a base code ORed with FWP_ACTION_FLAG_TERMINATING
      (0x1000) and, for callouts, FWP_ACTION_FLAG_CALLOUT (0x4000). */
  const FWP_ACTION_BLOCK: u32 := 0x1001
  const FWP_ACTION_PERMIT: u32 := 0x1002
  const FWP_ACTION_CALLOUT_TERMINATING: u32 := 0x5003

  const FWP_MATCH_EQUAL: u32 := 0

  /** `FWP_VALUE0` / `FWP_CONDITION_VALUE0`: the type tag is the constructor. */
  datatype Value = Empty | Uint8(u8: u8) | Uint16(u16: u16) | Uint64(u64: u64)

  datatype Condition = Condition(fieldKey: Guid, matchType: u32, conditionValue: Value)

  /** The fields of `FWPM_FILTER0` the wrapper sets or reads; `displayName` is the
      nullable `displayData.name`. */
  datatype Filter = Filter(
    filterId: FilterId,
    displayName: Option<string>,
    layerKey: Guid,
    subLayerKey: Guid,
    weight: Value,
    actionType: u32,
    conditions: seq<Condition>)

  /** The fields of `FWPM_SUBLAYER0` the wrapper sets. */
  datatype SubLayer = SubLayer(subLayerKey: Guid, displayName: Option<string>, weight: u16)

  /** What one `FwpmFilterEnum0` call writes to its out-parameters: a page that is a
      null pointer or `|entries|` (the returned count) pointers to filters. */
  datatype Page = Page(isNull: bool, entries: seq<Filter>)

  datatype EnumReply = EnumReply(status: Status, page: Page)

  /** The answer of an engine whose enumeration has no more entries. */
  const END_OF_ENUM: EnumReply := EnumReply(ERROR_SUCCESS, Page(true, []))
}
