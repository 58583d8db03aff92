/** The per-packet feature builder: nineteen values taken from the decoded
    headers in a fixed order, and the step that labels them with column names
    to form the one-row frame handed to the preprocessing transform. */
module Features {
  import opened Wrappers
  import opened Bytes
  import opened PacketHeaders

  /** One position of the feature vector, named by the header field it reads. */
  datatype Feature =
    | IpId | IpFlagDf | IpTtl | IpLen | IpDsfield
    | TcpSport | TcpSeq | TcpLen | TcpHdrLen
    | TcpFlagBit(flag: TcpFlag)
    | TcpWindowSize | TcpUrgentPointer | TcpOptionsMssVal

  /** The order in which the builder appends its values. */
  const SCHEMA: seq<Feature> := [
    IpId, IpFlagDf, IpTtl, IpLen, IpDsfield,
    TcpSport, TcpSeq, TcpLen, TcpHdrLen,
    TcpFlagBit(FIN), TcpFlagBit(SYN), TcpFlagBit(RST), TcpFlagBit(PSH),
    TcpFlagBit(ACK), TcpFlagBit(URG), TcpFlagBit(CWR),
    TcpWindowSize, TcpUrgentPointer, TcpOptionsMssVal]

  /** The name the builder's trailing comment gives each value. The value at
      TcpSport is the source port although its name is "tcp_dport". */
  function Label(f: Feature): string {
    match f
    case IpId => "ip_id"
    case IpFlagDf => "ip_flag_df"
    case IpTtl => "ip_ttl"
    case IpLen => "ip_len"
    case IpDsfield => "ip_dsfield"
    case TcpSport => "tcp_dport"
    case TcpSeq => "tcp_seq"
    case TcpLen => "tcp_len"
    case TcpHdrLen => "tcp_hdr_len"
    case TcpFlagBit(flag) => (
      match flag
      case FIN => "tcp_flag_fin"
      case SYN => "tcp_flag_syn"
      case RST => "tcp_flag_rst"
      case PSH => "tcp_flag_push"
      case ACK => "tcp_flag_ack"
      case URG => "tcp_flag_urg"
      case ECE => "tcp_flag_ece"
      case CWR => "tcp_flag_cwr"
      case NS => "tcp_flag_ns")
    case TcpWindowSize => "tcp_window_size"
    case TcpUrgentPointer => "tcp_urgent_pointer"
    case TcpOptionsMssVal => "tcp_options_mss_val"
  }

  /** `x & 1` for a non-negative x: its lowest bit. */
  function LowBit(x: nat): (r: bit)
    ensures x < 2 ==> r == x
    ensures (x - r) % 2 == 0
  {
    x % 2
  }

  /** Where the first option named "MSS" stands, or |options| if none does. */
  function FirstMssIndex(options: seq<TcpOption>): (k: nat)
    ensures k <= |options|
    ensures forall j :: 0 <= j < k ==> options[j].kind != "MSS"
    ensures k < |options| ==> options[k].kind == "MSS"
  {
    if options == [] then 0
    else if options[0].kind == "MSS" then 0
    else 1 + FirstMssIndex(options[1..])
  }

  /** The value of the first MSS option read in the host's byte order, 0 if
      there is none (`next((... for x in options if x[0] == "MSS"), 0)`). */
  function MssValue(options: seq<TcpOption>, host: ByteOrder): (v: nat)
    ensures v == 0 || exists k :: 0 <= k < |options| && options[k].kind == "MSS" && v == FromBytes(options[k].data, host)
  {
    var k := FirstMssIndex(options);
    if k < |options| then FromBytes(options[k].data, host) else 0
  }

  /** With no option named "MSS" the value is 0. */
  lemma MssAbsent(options: seq<TcpOption>, host: ByteOrder)
    requires forall i :: 0 <= i < |options| ==> options[i].kind != "MSS"
    ensures MssValue(options, host) == 0
  {
  }

  /** Otherwise it is the first such option's bytes read in the host's order;
      options after it, MSS options included, play no part. */
  lemma MssFirst(options: seq<TcpOption>, k: nat, host: ByteOrder)
    requires k < |options| && options[k].kind == "MSS"
    requires forall j :: 0 <= j < k ==> options[j].kind != "MSS"
    ensures MssValue(options, host) == FromBytes(options[k].data, host)
  {
  }

  /** Appending options never changes a value already found, and non-MSS
      options in front of the first MSS option change nothing either. */
  lemma MssIgnoresOthers(before: seq<TcpOption>, mss: TcpOption, after: seq<TcpOption>, host: ByteOrder)
    requires forall j :: 0 <= j < |before| ==> before[j].kind != "MSS"
    requires mss.kind == "MSS"
    ensures MssValue(before + [mss] + after, host) == FromBytes(mss.data, host)
  {
    var all := before + [mss] + after;
    assert all[|before|] == mss;
    assert forall j :: 0 <= j < |before| ==> all[j] == before[j];
    MssFirst(all, |before|, host);
  }

  /** The value the builder appends at position f. */
  function Value(h: Headers, f: Feature, host: ByteOrder): (v: int)
    ensures v >= 0
    ensures f == IpFlagDf || f.TcpFlagBit? ==> v == 0 || v == 1
  {
    match f
    case IpId => h.ip.id
    case IpFlagDf => LowBit(h.ip.flags.DF)
    case IpTtl => h.ip.ttl
    case IpLen => h.ip.len
    case IpDsfield => h.ip.tos
    case TcpSport => h.tcp.sport
    case TcpSeq => h.tcp.seqNumber
    case TcpLen => |h.tcp.payload|
    case TcpHdrLen => h.tcp.layerLength
    case TcpFlagBit(flag) => LowBit(TcpAttr(h.tcp.flags, flag))
    case TcpWindowSize => h.tcp.window
    case TcpUrgentPointer => h.tcp.urgptr
    case TcpOptionsMssVal => MssValue(h.tcp.options, host)
  }

  /** The builder's four groups of values: the IPv4 fields ... */
  function IpFields(h: Headers): seq<int> {
    [h.ip.id, LowBit(h.ip.flags.DF), h.ip.ttl, h.ip.len, h.ip.tos]
  }

  /** ... the TCP fields ... */
  function TcpFields(h: Headers): seq<int> {
    [h.tcp.sport, h.tcp.seqNumber, |h.tcp.payload|, h.tcp.layerLength]
  }

  /** ... the seven TCP flags, each masked to one bit ... */
  function FlagBits(h: Headers): seq<int> {
    [LowBit(h.tcp.flags.F), LowBit(h.tcp.flags.S), LowBit(h.tcp.flags.R), LowBit(h.tcp.flags.P),
     LowBit(h.tcp.flags.A), LowBit(h.tcp.flags.U), LowBit(h.tcp.flags.C)]
  }

  /** ... and window, urgent pointer and MSS value. */
  function TailFields(h: Headers, host: ByteOrder): seq<int> {
    [h.tcp.window, h.tcp.urgptr, MssValue(h.tcp.options, host)]
  }

  /** The vector the builder produces. */
  function FeatureVector(h: Headers, host: ByteOrder): (v: seq<int>)
    ensures |v| == |SCHEMA|
  {
    IpFields(h) + TcpFields(h) + FlagBits(h) + TailFields(h, host)
  }

  /** The builder: starts from an empty list and appends nineteen values. */
  method BuildFeatures(h: Headers, host: ByteOrder) returns (pkt: seq<int>)
    ensures pkt == FeatureVector(h, host)
  {
    var l3, l4 := h.ip, h.tcp;
    pkt := [];
    pkt := pkt + [l3.id];
    pkt := pkt + [LowBit(l3.flags.DF)];
    pkt := pkt + [l3.ttl];
    pkt := pkt + [l3.len];
    pkt := pkt + [l3.tos];
    assert pkt == IpFields(h);

    pkt := pkt + [l4.sport];
    pkt := pkt + [l4.seqNumber];
    pkt := pkt + [|l4.payload|];
    pkt := pkt + [l4.layerLength];
    assert pkt == IpFields(h) + TcpFields(h);

    pkt := pkt + [LowBit(l4.flags.F)];
    pkt := pkt + [LowBit(l4.flags.S)];
    pkt := pkt + [LowBit(l4.flags.R)];
    pkt := pkt + [LowBit(l4.flags.P)];
    pkt := pkt + [LowBit(l4.flags.A)];
    pkt := pkt + [LowBit(l4.flags.U)];
    pkt := pkt + [LowBit(l4.flags.C)];
    assert pkt == IpFields(h) + TcpFields(h) + FlagBits(h);
    pkt := pkt + [l4.window];
    pkt := pkt + [l4.urgptr];
    pkt := pkt + [MssValue(l4.options, host)];
  }

  /** The vector has one entry per schema position, and each entry is the
      value of that position's field, copied unchanged (flags masked to one bit). */
  lemma FeatureVectorFollowsSchema(h: Headers, host: ByteOrder)
    ensures |FeatureVector(h, host)| == |SCHEMA| == 19
    ensures forall i :: 0 <= i < |SCHEMA| ==> FeatureVector(h, host)[i] == Value(h, SCHEMA[i], host)
  {
    var v := FeatureVector(h, host);
    assert v[..5] == IpFields(h) && v[5..9] == TcpFields(h);
    assert v[9..16] == FlagBits(h) && v[16..] == TailFields(h, host);
  }

  /** Position 5 is named "tcp_dport" but holds the source port, so it differs
      from the destination port whenever the two ports differ. */
  lemma PortFeatureIsSourcePort(h: Headers, host: ByteOrder)
    ensures Label(SCHEMA[5]) == "tcp_dport"
    ensures FeatureVector(h, host)[5] == h.tcp.sport
    ensures h.tcp.sport != h.tcp.dport ==> FeatureVector(h, host)[5] != h.tcp.dport
  {
  }

  /** The DF entry and the seven TCP flag entries are always 0 or 1. */
  lemma FlagFeaturesAreBits(h: Headers, host: ByteOrder, i: nat)
    requires i < |SCHEMA|
    requires SCHEMA[i] == IpFlagDf || SCHEMA[i].TcpFlagBit?
    ensures FeatureVector(h, host)[i] == 0 || FeatureVector(h, host)[i] == 1
  {
    FeatureVectorFollowsSchema(h, host);
  }

  /** Toggling TCP flag f changes the value at feature x only when x is f's
      own flag feature, and there it turns 0 into 1 and 1 into 0. */
  lemma ToggleTcpValue(h: Headers, host: ByteOrder, f: TcpFlag, x: Feature)
    ensures Value(ToggleTcp(h, f), x, host) ==
            if x == TcpFlagBit(f) then 1 - Value(h, x, host) else Value(h, x, host)
  {
    var t := ToggleTcp(h, f);
    if x.TcpFlagBit? {
      assert TcpAttr(t.tcp.flags, x.flag) ==
             if f == x.flag then 1 - TcpAttr(h.tcp.flags, x.flag) else TcpAttr(h.tcp.flags, x.flag);
    }
  }

  /** Toggling one TCP flag changes only that flag's own entry of the vector;
      the flags that have no entry (ECE, NS) change nothing. */
  lemma ToggleTcpFlagFeature(h: Headers, host: ByteOrder, f: TcpFlag)
    ensures var before, after := FeatureVector(h, host), FeatureVector(ToggleTcp(h, f), host);
      |after| == |before| &&
      forall i :: 0 <= i < |before| ==>
        if SCHEMA[i] == TcpFlagBit(f) then after[i] == 1 - before[i] else after[i] == before[i]
  {
    FeatureVectorFollowsSchema(h, host);
    FeatureVectorFollowsSchema(ToggleTcp(h, f), host);
    forall i | 0 <= i < |SCHEMA| {
      ToggleTcpValue(h, host, f, SCHEMA[i]);
    }
  }

  /** Toggling IPv4 flag f changes the value at x only when f is DF and x is
      the DF feature. */
  lemma ToggleIpValue(h: Headers, host: ByteOrder, f: IpFlag, x: Feature)
    ensures Value(ToggleIp(h, f), x, host) ==
            if x == IpFlagDf && f == DF then 1 - Value(h, x, host) else Value(h, x, host)
  {
    var t := ToggleIp(h, f);
    assert IpAttr(t.ip.flags, DF) == if f == DF then 1 - IpAttr(h.ip.flags, DF) else IpAttr(h.ip.flags, DF);
  }

  /** Toggling DF changes only the DF entry; MF and the reserved bit change nothing. */
  lemma ToggleIpFlagFeature(h: Headers, host: ByteOrder, f: IpFlag)
    ensures var before, after := FeatureVector(h, host), FeatureVector(ToggleIp(h, f), host);
      |after| == |before| &&
      forall i :: 0 <= i < |before| ==>
        if SCHEMA[i] == IpFlagDf && f == DF then after[i] == 1 - before[i] else after[i] == before[i]
  {
    FeatureVectorFollowsSchema(h, host);
    FeatureVectorFollowsSchema(ToggleIp(h, f), host);
    forall i | 0 <= i < |SCHEMA| {
      ToggleIpValue(h, host, f, SCHEMA[i]);
    }
  }

  /** A SYN segment with window 64240 and TTL 64 and no MSS option gives
      tcp_flag_syn 1, tcp_window_size 64240, ip_ttl 64 and tcp_options_mss_val 0. */
  lemma SynWithoutMssScenario(h: Headers, host: ByteOrder)
    requires h.tcp.flags.S == 1 && h.tcp.window == 64240 && h.ip.ttl == 64
    requires forall i :: 0 <= i < |h.tcp.options| ==> h.tcp.options[i].kind != "MSS"
    ensures var v := FeatureVector(h, host);
      |v| == 19 && v[2] == 64 && v[10] == 1 && v[16] == 64240 && v[18] == 0
  {
    MssAbsent(h.tcp.options, host);
  }

  /** One labelled cell of a one-row frame. */
  datatype Column<V> = Column(name: string, value: V)

  type Frame<V> = seq<Column<V>>

  /** Raised when the number of column names differs from the number of values. */
  datatype SchemaError = ShapeMismatch(columns: nat, values: nat)

  /** Label a row of values with column names (`DataFrame([row], columns=names)`). */
  function Pair<V>(names: seq<string>, values: seq<V>): (r: Result<Frame<V>, SchemaError>)
    ensures r.Success? <==> |names| == |values|
    ensures r.Failure? ==> r.error == ShapeMismatch(|names|, |values|)
    ensures r.Success? ==> |r.value| == |names|
  {
    if |names| != |values| then Failure(ShapeMismatch(|names|, |values|))
    else Success(seq(|names|, i requires 0 <= i < |names| => Column(names[i], values[i])))
  }

  function Names<V>(frame: Frame<V>): (names: seq<string>)
    ensures |names| == |frame|
  {
    seq(|frame|, i requires 0 <= i < |frame| => frame[i].name)
  }

  function Values<V>(frame: Frame<V>): (values: seq<V>)
    ensures |values| == |frame|
  {
    seq(|frame|, i requires 0 <= i < |frame| => frame[i].value)
  }

  /** A successful pairing keeps every name and every value, in order. */
  lemma PairRoundTrip<V>(names: seq<string>, values: seq<V>)
    requires |names| == |values|
    ensures Pair(names, values).Success?
    ensures Names(Pair(names, values).value) == names
    ensures Values(Pair(names, values).value) == values
  {
  }

  /** The column names the program pairs the vector with (a flow-feature list). */
  const SHIPPED_COLUMNS: seq<string> := [
    "dst_port", "ip_prot", "flow_duration", "down_up_ratio", "pkt_len_max",
    "bytes_per_s", "pkt_per_s", "fwd_pkt_cnt", "fwd_pkt_len_tot", "fwd_pkt_len_max"]

  /** The names of the nineteen values the builder appends, in their order. */
  const INTENDED_COLUMNS: seq<string> :=
    seq(|SCHEMA|, i requires 0 <= i < |SCHEMA| => Label(SCHEMA[i]))

  /** The shipped names cannot label the vector: 10 names against 19 values. */
  lemma ShippedColumnsMismatch(h: Headers, host: ByteOrder)
    ensures |SHIPPED_COLUMNS| == 10 && |FeatureVector(h, host)| == 19
    ensures Pair(SHIPPED_COLUMNS, FeatureVector(h, host)) == Failure(ShapeMismatch(10, 19))
  {
  }

  /** The names of the builder's own values label it, one name per value. */
  lemma IntendedColumnsMatch(h: Headers, host: ByteOrder)
    ensures Pair(INTENDED_COLUMNS, FeatureVector(h, host)).Success?
    ensures Names(Pair(INTENDED_COLUMNS, FeatureVector(h, host)).value) == INTENDED_COLUMNS
    ensures Values(Pair(INTENDED_COLUMNS, FeatureVector(h, host)).value) == FeatureVector(h, host)
  {
    PairRoundTrip(INTENDED_COLUMNS, FeatureVector(h, host));
  }
}
