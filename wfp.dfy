/** The pure part of the wrapper over the filtering engine: the action type in both
    directions, the layer pretty-printer, the projection of an enumerated filter into a
    summary, the simple TCP rule the wrapper submits, and the error messages. */
module Wfp {
  import opened Base
  import opened Guids
  import opened Fwp

  datatype WfpAction = Permit | Block | Callout

  /** What the wrapper reports of one enumerated filter. */
  datatype FilterSummary = FilterSummary(id: FilterId, name: string, layer: string, action: WfpAction)

  const NO_NAME: string := "<no name>"

  /** The `FWP_ACTION_TYPE` submitted for an action when adding a rule; a callout is
      submitted as a terminating callout. */
  function ActionType(a: WfpAction): (t: u32)
    ensures t == FWP_ACTION_PERMIT || t == FWP_ACTION_BLOCK || t == FWP_ACTION_CALLOUT_TERMINATING
    ensures DecodeAction(t) == a
  {
    match a
    case Permit => FWP_ACTION_PERMIT
    case Block => FWP_ACTION_BLOCK
    case Callout => FWP_ACTION_CALLOUT_TERMINATING
  }

  /** The action reported for an enumerated filter's action type: every type other
      than permit and block is reported as a callout. */
  function DecodeAction(t: u32): (a: WfpAction)
    ensures a == Permit <==> t == FWP_ACTION_PERMIT
    ensures a == Block <==> t == FWP_ACTION_BLOCK
    ensures a == Callout <==> t != FWP_ACTION_PERMIT && t != FWP_ACTION_BLOCK
  {
    if t == FWP_ACTION_PERMIT then Permit
    else if t == FWP_ACTION_BLOCK then Block
    else Callout
  }

  predicate IsKnownLayer(g: Guid) {
    g == FWPM_LAYER_ALE_AUTH_CONNECT_V4 ||
    g == FWPM_LAYER_ALE_AUTH_CONNECT_V6 ||
    g == FWPM_LAYER_ALE_FLOW_ESTABLISHED_V4
  }

  /** `guid_to_layer_name`: a fixed token for the three layers it knows, the GUID's
      debug text for every other layer. */
  function GuidToLayerName(g: Guid): (r: string)
    ensures g == FWPM_LAYER_ALE_AUTH_CONNECT_V4 ==> r == "ALE_AUTH_CONNECT_V4"
    ensures g == FWPM_LAYER_ALE_AUTH_CONNECT_V6 ==> r == "ALE_AUTH_CONNECT_V6"
    ensures g == FWPM_LAYER_ALE_FLOW_ESTABLISHED_V4 ==> r == "ALE_FLOW_ESTABLISHED_V4"
  {
    if g == FWPM_LAYER_ALE_AUTH_CONNECT_V4 then "ALE_AUTH_CONNECT_V4"
    else if g == FWPM_LAYER_ALE_AUTH_CONNECT_V6 then "ALE_AUTH_CONNECT_V6"
    else if g == FWPM_LAYER_ALE_FLOW_ESTABLISHED_V4 then "ALE_FLOW_ESTABLISHED_V4"
    else GuidText(g)
  }

  /** The fallback never fails and loses nothing: the name of an unknown layer is text
      that parses back to that layer's GUID, and the name of a known layer is a token
      that is not GUID text. */
  lemma LayerNameParsesBack(g: Guid)
    ensures IsKnownLayer(g) ==> ParseGuidText(GuidToLayerName(g)) == None
    ensures !IsKnownLayer(g) ==> ParseGuidText(GuidToLayerName(g)) == Some(g)
  {
    if !IsKnownLayer(g) {
      GuidTextRoundTrip(g);
    }
  }

  /** Distinct layers are always printed differently: the printed name identifies the
      layer, whether it is a token or the fallback text. */
  lemma LayerNameInjective(a: Guid, b: Guid)
    requires GuidToLayerName(a) == GuidToLayerName(b)
    ensures a == b
  {
    LayerNameParsesBack(a);
    LayerNameParsesBack(b);
    if !IsKnownLayer(a) && !IsKnownLayer(b) {
      assert Some(a) == ParseGuidText(GuidToLayerName(a)) == Some(b);
    }
  }

  /** One enumerated filter as the listing reports it. */
  function Summarize(f: Filter): FilterSummary {
    var name := match f.displayName
      case Some(n) => n
      case None => NO_NAME;
    FilterSummary(f.filterId, name, GuidToLayerName(f.layerKey), DecodeAction(f.actionType))
  }

  /** A summary reports the entry's identifier, its display name or "<no name>" when it
      has none, a layer name from which the layer can be recovered, and the action its
      type decodes to. */
  lemma SummaryFields(f: Filter)
    ensures var s := Summarize(f);
      && s.id == f.filterId
      && s.name == (if f.displayName.Some? then f.displayName.value else "<no name>")
      && (IsKnownLayer(f.layerKey) || ParseGuidText(s.layer) == Some(f.layerKey))
      && (s.action == Permit <==> f.actionType == FWP_ACTION_PERMIT)
      && (s.action == Block <==> f.actionType == FWP_ACTION_BLOCK)
      && (s.action == Callout <==> f.actionType != FWP_ACTION_PERMIT && f.actionType != FWP_ACTION_BLOCK)
  {
    LayerNameParsesBack(f.layerKey);
  }

  /** The constant sublayer every rule of this wrapper is added to. */
  const SLS_SUBLAYER_KEY: Guid := 0x5d2b9e18_ea68_4a38_93c7_83f3f14f0a01
  const SLS_SUBLAYER: SubLayer := SubLayer(SLS_SUBLAYER_KEY, Some("SLS SubLayer"), 0x7FFF)

  const IPPROTO_TCP: u8 := 6
  const SIMPLE_RULE_WEIGHT: u64 := 10

  const PROTOCOL_IS_TCP: Condition :=
    Condition(FWPM_CONDITION_IP_PROTOCOL, FWP_MATCH_EQUAL, Uint8(IPPROTO_TCP))

  function RemotePortIs(port: u16): Condition {
    Condition(FWPM_CONDITION_IP_REMOTE_PORT, FWP_MATCH_EQUAL, Uint16(port))
  }

  /** The filter `add_simple_tcp_filter_v4` submits, before the engine assigns its
      identifier (the `FWPM_FILTER0` default of 0). */
  function SimpleTcpFilterV4(name: string, remotePort: u16, action: WfpAction): (f: Filter)
    ensures f.displayName == Some(name)
    ensures f.layerKey == FWPM_LAYER_ALE_AUTH_CONNECT_V4 && f.subLayerKey == SLS_SUBLAYER_KEY
    ensures f.weight == Uint64(SIMPLE_RULE_WEIGHT)
    ensures DecodeAction(f.actionType) == action
    ensures f.conditions == [PROTOCOL_IS_TCP, RemotePortIs(remotePort)]
  {
    Filter(0, Some(name), FWPM_LAYER_ALE_AUTH_CONNECT_V4, SLS_SUBLAYER_KEY,
           Uint64(SIMPLE_RULE_WEIGHT), ActionType(action),
           [PROTOCOL_IS_TCP, RemotePortIs(remotePort)])
  }

  /** Recognizes a filter of the simple TCP shape, whatever its identifier, and reads
      back its name, remote port and action; `None` for any other filter. */
  function SimpleTcpRuleParams(f: Filter): Option<(string, u16, WfpAction)> {
    if f.displayName.Some? && f.layerKey == FWPM_LAYER_ALE_AUTH_CONNECT_V4 &&
       f.subLayerKey == SLS_SUBLAYER_KEY && f.weight == Uint64(SIMPLE_RULE_WEIGHT) &&
       (f.actionType == FWP_ACTION_PERMIT || f.actionType == FWP_ACTION_BLOCK ||
        f.actionType == FWP_ACTION_CALLOUT_TERMINATING) &&
       |f.conditions| == 2 && f.conditions[0] == PROTOCOL_IS_TCP &&
       f.conditions[1].fieldKey == FWPM_CONDITION_IP_REMOTE_PORT &&
       f.conditions[1].matchType == FWP_MATCH_EQUAL && f.conditions[1].conditionValue.Uint16?
    then Some((f.displayName.value, f.conditions[1].conditionValue.u16, DecodeAction(f.actionType)))
    else None
  }

  /** The submitted rule, under whatever identifier the engine gives it, is recognized
      and carries exactly the requested name, port and action. */
  lemma SimpleTcpRuleRoundTrip(name: string, remotePort: u16, action: WfpAction, id: FilterId)
    ensures SimpleTcpRuleParams(SimpleTcpFilterV4(name, remotePort, action).(filterId := id))
            == Some((name, remotePort, action))
  {
  }

  /** Adding a rule and listing it: the summary of the stored rule shows the given
      name, the outbound IPv4 connect layer token and the requested action. */
  lemma AddedFilterSummary(name: string, remotePort: u16, action: WfpAction, id: FilterId)
    ensures Summarize(SimpleTcpFilterV4(name, remotePort, action).(filterId := id))
            == FilterSummary(id, name, "ALE_AUTH_CONNECT_V4", action)
  {
  }

  /** The engine calls whose failure the wrapper reports. */
  datatype Api =
    | FwpmFilterCreateEnumHandle0
    | FwpmFilterEnum0
    | FwpmTransactionBegin0
    | FwpmFilterAdd0
    | FwpmTransactionCommit0

  function ApiName(api: Api): string {
    match api
    case FwpmFilterCreateEnumHandle0 => "FwpmFilterCreateEnumHandle0"
    case FwpmFilterEnum0 => "FwpmFilterEnum0"
    case FwpmTransactionBegin0 => "FwpmTransactionBegin0"
    case FwpmFilterAdd0 => "FwpmFilterAdd0"
    case FwpmTransactionCommit0 => "FwpmTransactionCommit0"
  }

  /** The error the wrapper returns: the failing call and its raw status. */
  datatype WfpError = Failed(api: Api, status: Status)

  /** The `anyhow!("<call> failed: 0x{st:08X}")` text of an error. */
  function Message(e: WfpError): (m: string)
    ensures |m| == |ApiName(e.api)| + 19
  {
    ApiName(e.api) + " failed: 0x" + HexDigits(e.status, 8)
  }

  /** The message keeps the diagnostic payload: the call and the raw status can both
      be read back from it, so distinct errors have distinct messages. */
  lemma MessageIdentifiesError(e1: WfpError, e2: WfpError)
    requires Message(e1) == Message(e2)
    ensures e1 == e2
  {
    var m := Message(e1);
    assert e1.api == e2.api;
    var n := |ApiName(e1.api)| + 11;
    assert m[n..] == HexDigits(e1.status, 8) == HexDigits(e2.status, 8);
    assert Pow16(8) == 0x1_0000_0000;
    HexRoundTrip(e1.status, 8);
    HexRoundTrip(e2.status, 8);
  }
}
