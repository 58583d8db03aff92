# yamlnids userspace IDS: a Dafny model

`userspace_ids.py` is an inline intrusion-detection program. It binds to a
netfilter packet queue. For every intercepted packet it builds a feature vector
from the IPv4 and TCP headers, labels the vector with column names, runs a
fitted preprocessing transform and a trained classifier, and then accepts the
packet (prediction 0, bona fide) or drops it (any other prediction). This
project models that program:

- `bytes.dfy` (module `Bytes`): `int.from_bytes` in either byte order, with its
  inverse.
- `packet_headers.dfy` (module `PacketHeaders`): the decoded header fields the
  builder reads, and the flag attributes as the packet library exposes them.
- `features.dfy` (module `Features`): the per-packet builder, a method that
  appends nineteen values. It is specified by the function `FeatureVector`. The
  module also holds the MSS option lookup and the labelling of a row with
  column names (`DataFrame([row], columns=...)`, which fails on a shape
  mismatch).
- `decision_loop.dfy` (module `DecisionLoop`):
  - the verdict rule;
  - the decision for one packet;
  - the loop over a finite list of queue events, each a packet or a buffer
    overflow. The loop is the method `Serve`, specified by the function `Run`.
- `startup.dfy` (module `Startup`): the command-line check, the model-file
  choice, the queue bind and the start of the loop.
- `wrappers.dfy`: `Result`.

Things left as parameters:

- The host's byte order (`sys.byteorder`).
- Whether binding queue 1 is permitted.
- The stream of queue events.
- The loaded preprocessing transform and classifier, taken as arbitrary
  functions of the file path they are loaded from.

Two quirks of the code are modelled as the code has them:

- The value at position 5 is commented `tcp_dport`, but it is `l4.sport`, the
  source port (`Features.PortFeatureIsSourcePort`).
- Line 25 lists ten flow-feature names (`dst_port`, `ip_prot`, `flow_duration`,
  ...), but lines 41-65 append nineteen per-packet header values. Pairing the
  two raises a shape error at line 67. That error is not the caught
  `BufferOverflowException`, so it ends the loop at the first packet (see
  Findings).

## Model

| member | source | states |
|---|---|---|
| `Bytes.DecodeLittle` | userspace_ids.py:65 | a little-endian read of k bytes is below 256^k |
| `Bytes.DecodeBig` | userspace_ids.py:65 | a big-endian read of k bytes is below 256^k |
| `Bytes.FromBytes` | userspace_ids.py:65 | `int.from_bytes` in the given order is unsigned, below 256^k, and 0 for the empty string |
| `Bytes.BigIsReversedLittle` | userspace_ids.py:65 | reading big-endian equals reading the reversed bytes little-endian |
| `Bytes.FromBytesRoundTrip` | userspace_ids.py:65 | in either byte order, decoding undoes encoding, and encoding undoes decoding |
| `Bytes.NetworkMssOnLittleEndianHost` | userspace_ids.py:65 | the network-order MSS 1460 ([0x05, 0xB4]) becomes 46085 when read in a little-endian host's order |
| `Features.MssValue` | userspace_ids.py:65 | `next(..., 0)` over the options gives 0 or the bytes of some option named "MSS" read in the host's order; `MssAbsent` and `MssFirst` say which |
| `Features.FirstMssIndex` | userspace_ids.py:65 | the index found is the first option named "MSS", or the list length if there is none |
| `Features.MssAbsent` | userspace_ids.py:65 | with no MSS option the MSS value is 0 |
| `Features.MssFirst` | userspace_ids.py:65 | otherwise the value is the first MSS option's bytes read in the host's order |
| `Features.MssIgnoresOthers` | userspace_ids.py:65 | options after the first MSS option, later MSS options included, do not affect the value |
| `Features.LowBit` | userspace_ids.py:53-59 | `x & 1` leaves a bool (0 or 1) unchanged and differs from x by an even number |
| `Features.Value` | userspace_ids.py:41-65 | every appended value is non-negative, and the DF and TCP flag values are 0 or 1 |
| `Features.FeatureVector` | userspace_ids.py:41-65 | the vector has one entry per schema position; `FeatureVectorFollowsSchema` says which field each entry holds |
| `Features.BuildFeatures` | userspace_ids.py:37-65 | the nineteen appends, starting from the empty list, produce exactly `FeatureVector` |
| `Features.FeatureVectorFollowsSchema` | userspace_ids.py:41-65 | the vector has 19 entries; entry i is the field that schema position i names, each flag masked to one bit |
| `Features.PortFeatureIsSourcePort` | userspace_ids.py:47 | position 5 is labelled "tcp_dport" but holds the source port, so it differs from the destination port whenever the ports differ |
| `Features.FlagFeaturesAreBits` | userspace_ids.py:53-59 | the DF entry and the seven TCP flag entries are always 0 or 1 |
| `Features.ToggleTcpValue` | userspace_ids.py:53-59 | toggling TCP flag f changes only f's own flag feature, from 0 to 1 or 1 to 0 |
| `Features.ToggleTcpFlagFeature` | userspace_ids.py:53-59 | toggling one TCP flag changes only its own entry in the vector; toggling ECE or NS changes nothing |
| `Features.ToggleIpValue` | userspace_ids.py:42 | toggling an IPv4 flag changes only the DF feature, and only when the flag is DF |
| `Features.ToggleIpFlagFeature` | userspace_ids.py:42 | toggling DF changes only entry 1; toggling MF or the reserved bit changes nothing |
| `Features.SynWithoutMssScenario` | userspace_ids.py:41-65 | a SYN segment with window 64240, TTL 64 and no MSS option gives tcp_flag_syn 1, window 64240, TTL 64 and MSS 0 |
| `Features.Pair` | userspace_ids.py:67 | labelling a row succeeds exactly when there are as many names as values; otherwise it fails with both counts |
| `Features.PairRoundTrip` | userspace_ids.py:67 | a successful labelling keeps every name and every value, in order |
| `Features.ShippedColumnsMismatch` | userspace_ids.py:25 | the ten shipped column names cannot label the nineteen-value vector: a shape error (10, 19) for every packet |
| `Features.IntendedColumnsMatch` | userspace_ids.py:41-65 | the labels of the builder's own values label the vector, one name per value |
| `DecisionLoop.VerdictOf` | userspace_ids.py:75-78 | the verdict is accept exactly when the prediction is 0, and drop otherwise |
| `DecisionLoop.Decide` | userspace_ids.py:67-78 | a column count other than 19 fails with a shape error; once the vector is labelled, the packet gets a verdict exactly when the transform output has one value per column, and otherwise fails with the shape error (columns, output width) of the second labelling; 19 columns and a width-preserving transform always give a verdict; a verdict is accept exactly when the classifier returns 0 on the relabelled transform output |
| `DecisionLoop.HandlePacket` | userspace_ids.py:37-78 | building, labelling, transforming, relabelling and classifying one packet give exactly the decision `Decide`, so its verdict is accept exactly when the classifier returns 0 |
| `DecisionLoop.Step` | userspace_ids.py:36-81 | after a crash nothing changes; an overflow adds one log line; a packet appends at most one verdict, its decision, or ends the loop with the error its decision raised |
| `DecisionLoop.Run` | userspace_ids.py:34-81 | at most one verdict per packet and one log line per overflow; while the loop runs, every packet has a verdict and every overflow is counted |
| `DecisionLoop.CrashIsFinal` | userspace_ids.py:34-81 | once an uncaught error ends the loop, later events change nothing |
| `DecisionLoop.Serve` | userspace_ids.py:34-81 | the loop over the events ends in exactly the state `Run` gives, stopping at the first uncaught error |
| `DecisionLoop.VerdictsFollowPackets` | userspace_ids.py:36-78 | verdict i is the decision for packet i, in arrival order; if the loop crashed, the packet after the last verdict raised the error |
| `DecisionLoop.VerdictsOnlyGrow` | userspace_ids.py:34-36 | reading more events only appends verdicts and only adds overflows |
| `DecisionLoop.OverflowIsTransparent` | userspace_ids.py:80-81 | inserting an overflow anywhere leaves the verdicts and the way the loop stops unchanged |
| `DecisionLoop.PacketAfterOverflowDecided` | userspace_ids.py:34-81 | after an overflow the next decidable packet gets its verdict, appended after the earlier verdicts |
| `DecisionLoop.ServesEveryPacket` | userspace_ids.py:34-81 | with 19 columns and a width-preserving transform the loop never stops, every packet gets its decision in order, and every overflow is logged |
| `DecisionLoop.MismatchedColumnsNeverDecide` | userspace_ids.py:67 | with any column count other than 19, no verdict is ever issued; the loop crashes with the shape error exactly when a packet arrives |
| `DecisionLoop.ShippedColumnsNeverDecide` | userspace_ids.py:25 | with the shipped ten names, no verdict is ever issued and the first packet crashes the loop with shape error (10, 19) |
| `DecisionLoop.IntendedColumnsDecideEveryPacket` | userspace_ids.py:41-72 | with the builder's own nineteen labels and a width-preserving transform, every packet gets a verdict and every overflow is logged |
| `Startup.Select` | userspace_ids.py:10-18 | fewer than two arguments select the usage text; a first argument outside ["knn", "dt"] selects the wrong-name message; otherwise the model file is the argument plus ".pkl" |
| `Startup.SelectedFileIsAccepted` | userspace_ids.py:16-18 | only "knn.pkl" and "dt.pkl" can be selected |
| `Startup.ExtraArgumentsIgnored` | userspace_ids.py:17 | arguments after the model name do not affect the choice |
| `Startup.PipelineFor` | userspace_ids.py:22-25 | the loop runs with the shipped column names, the host's byte order, the transform loaded from "Models/preprocessor.pkl" and the classifier loaded from "Models/" + file |
| `Startup.Program` | userspace_ids.py:10-85 | usage, wrong name, access denied and serving each happen under exactly their condition; a served run reports "Models/" + name + ".pkl" and its state is the loop run with the transform and the classifier loaded from those paths |
| `Startup.Launch` | userspace_ids.py:10-85 | the program's steps yield exactly the outcome `Program` describes |
| `Startup.ShippedProgramNeverDecides` | userspace_ids.py:22-67 | a served run issues no verdict; its loop crashes exactly when the queue delivers a packet |

## Left out

- Reading the queue, issuing the kernel verdict, and printing messages are
  modelled as their effect on the loop state. The loop counts overflow log
  lines and collects verdicts. The exit status of `sys.exit(-1)` is not modelled.
- The program's `while True` loop over an endless queue is modelled on a finite
  list of events, which stands for any prefix of the stream. `conn.close()`
  (line 83) can never be reached and is not modelled.
- Decoding packet bytes into headers is taken as given: scapy's IP and TCP
  decoding is not part of this model. The record stands for the layers the
  builder reads. The source builds `l4` with `TCP(packet.payload)`, that is, it
  decodes the IPv4 bytes themselves as TCP, and that misreading is not modelled.
- The TCP flags are given as their per-bit attributes (`flags.F`, ...), each
  0 or 1 as a Python bool. How the packet library derives them from the 9-bit
  field is not modelled.
- The MSS option value is modelled as a byte string, as the source's comment
  and its `int.from_bytes` call expect. The type the packet library actually
  stores there is not modelled. If it stores an integer, `int.from_bytes` at
  line 65 raises an uncaught `TypeError`, so the first packet carrying an MSS
  option would end the loop before line 67; that case is not modelled.
- Loading the preprocessor and the classifier with `joblib.load` is an
  arbitrary function of the file path. A missing or unreadable file, and the
  exceptions it raises, are not modelled.
- The preprocessing transform and the classifier are arbitrary functions of
  the labelled frame, using exact reals. Floating point is not modelled, and
  the classifier's one-element prediction array is modelled as one integer.
- `Startup.Select`: the usage text (which prints `sys.argv[0]`) and the other
  printed messages are not modelled. Only the choice between them is.

## Findings

| source | as written | input that shows it | evidently intended | confidence | as-written member | corrected member |
|---|---|---|---|---|---|---|
| userspace_ids.py:25 | the ten flow-feature names label a row of nineteen per-packet values | any first packet: `DataFrame([pkt], columns=features)` raises a shape error (10 names, 19 values), which is not caught, so the loop ends with no verdict | one name per appended value, the nineteen labels of lines 41-65 | not executed | `DecisionLoop.ShippedColumnsNeverDecide` | `DecisionLoop.IntendedColumnsDecideEveryPacket` |
