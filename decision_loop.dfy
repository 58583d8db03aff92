/** The decision loop: every packet taken from the queue is turned into a
    feature vector, labelled, preprocessed, classified and then accepted or
    dropped; a buffer overflow of the queue is logged and reading resumes. */
module DecisionLoop {
  import opened Wrappers
  import opened Bytes
  import opened PacketHeaders
  import opened Features

  datatype Verdict = Accept | Drop

  /** The classifier's output 0 means bona fide; any other output means attack. */
  function VerdictOf(prediction: int): (v: Verdict)
    ensures v == Accept <==> prediction == 0
    ensures v == Drop <==> prediction != 0
  {
    if prediction == 0 then Accept else Drop
  }

  /** What reading the queue yields next: a packet, or the buffer-overflow
      exception raised by the queue's iterator. */
  datatype Event = Packet(headers: Headers) | Overflow

  /** The fixed parts of the loop: the column names, the loaded preprocessing
      transform and classifier, and the host's byte order. */
  datatype Pipeline = Pipeline(
    columns: seq<string>,
    transform: Frame<int> -> seq<real>,
    predict: Frame<real> -> int,
    host: ByteOrder)

  /** The transform returns one value per column, as a fitted preprocessor does. */
  ghost predicate WidthPreserving(p: Pipeline) {
    forall frame: Frame<int> :: |frame| == |p.columns| ==> |p.transform(frame)| == |p.columns|
  }

  /** The decision for one packet, or the error that labelling a row raised. */
  function Decide(h: Headers, p: Pipeline): (r: Result<Verdict, SchemaError>)
    ensures |p.columns| != |SCHEMA| ==> r == Failure(ShapeMismatch(|p.columns|, |SCHEMA|))
    ensures |p.columns| == |SCHEMA| && WidthPreserving(p) ==> r.Success?
    ensures Pair(p.columns, FeatureVector(h, p.host)).Success? ==>
              var df := Pair(p.columns, FeatureVector(h, p.host)).value;
              (r.Success? <==> |p.transform(df)| == |p.columns|) &&
              (r.Failure? ==> r.error == ShapeMismatch(|p.columns|, |p.transform(df)|))
    ensures r.Success? ==> exists df, x ::
              Pair(p.columns, FeatureVector(h, p.host)) == Success(df) &&
              Pair(p.columns, p.transform(df)) == Success(x) &&
              (r.value == Accept <==> p.predict(x) == 0)
  {
    match Pair(p.columns, FeatureVector(h, p.host))
    case Failure(e) => Failure(e)
    case Success(df) =>
      match Pair(p.columns, p.transform(df))
      case Failure(e) => Failure(e)
      case Success(x) => Success(VerdictOf(p.predict(x)))
  }

  /** The loop is still reading, or an uncaught error ended it. */
  datatype Stop = Running | Crashed(error: SchemaError)

  datatype LoopState = LoopState(verdicts: seq<Verdict>, overflows: nat, stop: Stop)

  const START := LoopState([], 0, Running)

  /** One event: nothing happens after a crash; an overflow is logged; a
      packet gets its verdict or crashes the loop. */
  function Step(s: LoopState, e: Event, p: Pipeline): (t: LoopState)
    ensures s.stop.Crashed? ==> t == s
    ensures s.verdicts <= t.verdicts && |t.verdicts| <= |s.verdicts| + 1
    ensures |t.verdicts| > |s.verdicts| ==>
              e.Packet? && Decide(e.headers, p) == Success(t.verdicts[|s.verdicts|])
    ensures t.overflows == if s.stop == Running && e.Overflow? then s.overflows + 1 else s.overflows
    ensures t.stop != s.stop ==>
              s.stop == Running && e.Packet? && t.stop.Crashed? && Decide(e.headers, p) == Failure(t.stop.error)
    ensures s.stop == Running && e.Packet? && Decide(e.headers, p).Success? ==>
              t == s.(verdicts := s.verdicts + [Decide(e.headers, p).value])
    ensures s.stop == Running && e.Packet? && Decide(e.headers, p).Failure? ==>
              t == s.(stop := Crashed(Decide(e.headers, p).error))
  {
    if s.stop.Crashed? then s
    else match e
      case Overflow => s.(overflows := s.overflows + 1)
      case Packet(h) => (
        match Decide(h, p)
        case Success(v) => s.(verdicts := s.verdicts + [v])
        case Failure(err) => s.(stop := Crashed(err)))
  }

  /** The packets of an event list, in order. */
  function Packets(events: seq<Event>): (hs: seq<Headers>)
    ensures |hs| <= |events|
  {
    if events == [] then []
    else
      var e := events[|events| - 1];
      Packets(events[..|events| - 1]) + if e.Packet? then [e.headers] else []
  }

  /** The number of overflows in an event list. */
  function Overflows(events: seq<Event>): (n: nat)
    ensures n <= |events|
  {
    if events == [] then 0
    else Overflows(events[..|events| - 1]) + if events[|events| - 1].Overflow? then 1 else 0
  }

  /** The state after the events, read one after another from the start. A
      verdict is issued at most once per packet and an overflow is counted at
      most once; while running, every packet has its verdict and every
      overflow is counted. */
  function Run(events: seq<Event>, p: Pipeline): (s: LoopState)
    ensures |s.verdicts| <= |Packets(events)| && s.overflows <= Overflows(events)
    ensures s.stop == Running ==> |s.verdicts| == |Packets(events)| && s.overflows == Overflows(events)
  {
    if events == [] then START
    else Step(Run(events[..|events| - 1], p), events[|events| - 1], p)
  }

  /** Once the loop has crashed, later events change nothing. */
  lemma {:induction false} CrashIsFinal(events: seq<Event>, k: nat, p: Pipeline)
    requires k <= |events| && Run(events[..k], p).stop.Crashed?
    ensures Run(events, p) == Run(events[..k], p)
    decreases |events|
  {
    if k < |events| {
      var front := events[..|events| - 1];
      assert front[..k] == events[..k];
      CrashIsFinal(front, k, p);
    } else {
      assert events[..k] == events;
    }
  }

  /** The body of the loop for one packet: build the vector, label it, run
      the transform, label its output and classify it. */
  method HandlePacket(h: Headers, p: Pipeline) returns (r: Result<Verdict, SchemaError>)
    ensures r == Decide(h, p)
  {
    var pkt := BuildFeatures(h, p.host);
    var df := Pair(p.columns, pkt);
    if df.Failure? {
      return Failure(df.error);
    }
    var x := Pair(p.columns, p.transform(df.value));
    if x.Failure? {
      return Failure(x.error);
    }
    var prediction := p.predict(x.value);
    if prediction == 0 {
      r := Success(Accept);
    } else {
      r := Success(Drop);
    }
  }

  /** The loop as the program runs it, stopping at the first uncaught error. */
  method Serve(events: seq<Event>, p: Pipeline) returns (s: LoopState)
    ensures s == Run(events, p)
  {
    var verdicts: seq<Verdict> := [];
    var overflows: nat := 0;
    var i := 0;
    while i < |events|
      invariant 0 <= i <= |events|
      invariant Run(events[..i], p) == LoopState(verdicts, overflows, Running)
    {
      assert events[..i + 1][..i] == events[..i];
      if events[i].Overflow? {
        overflows := overflows + 1;
      } else {
        var r := HandlePacket(events[i].headers, p);
        if r.Failure? {
          s := LoopState(verdicts, overflows, Crashed(r.error));
          CrashIsFinal(events, i + 1, p);
          return;
        }
        verdicts := verdicts + [r.value];
      }
      i := i + 1;
    }
    assert events[..i] == events;
    s := LoopState(verdicts, overflows, Running);
  }

  /** The verdicts issued are exactly the decisions for the first packets,
      in packet order; if the loop crashed, the packet after the last verdict
      raised the error. */
  lemma {:induction false} VerdictsFollowPackets(events: seq<Event>, p: Pipeline)
    ensures var s := Run(events, p);
      forall i :: 0 <= i < |s.verdicts| ==> Decide(Packets(events)[i], p) == Success(s.verdicts[i])
    ensures var s := Run(events, p);
      s.stop.Crashed? ==> |s.verdicts| < |Packets(events)| &&
                          Decide(Packets(events)[|s.verdicts|], p) == Failure(s.stop.error)
  {
    if events != [] {
      var front := events[..|events| - 1];
      VerdictsFollowPackets(front, p);
      var e := events[|events| - 1];
      assert Packets(events) == Packets(front) + if e.Packet? then [e.headers] else [];
    }
  }

  /** Reading more events only appends verdicts. */
  lemma {:induction false} VerdictsOnlyGrow(events: seq<Event>, more: seq<Event>, p: Pipeline)
    ensures Run(events, p).verdicts <= Run(events + more, p).verdicts
    ensures Run(events, p).overflows <= Run(events + more, p).overflows
    decreases |more|
  {
    if more == [] {
      assert events + more == events;
    } else {
      var front := more[..|more| - 1];
      assert (events + more)[..|events + more| - 1] == events + front;
      VerdictsOnlyGrow(events, front, p);
    }
  }

  /** An overflow does not stop the loop: with or without it, the same
      verdicts are issued and the loop stops, or not, the same way. */
  lemma {:induction false} OverflowIsTransparent(pre: seq<Event>, post: seq<Event>, p: Pipeline)
    ensures Run(pre + [Overflow] + post, p).verdicts == Run(pre + post, p).verdicts
    ensures Run(pre + [Overflow] + post, p).stop == Run(pre + post, p).stop
    decreases |post|
  {
    if post == [] {
      assert pre + [Overflow] + post == pre + [Overflow];
      assert (pre + [Overflow])[..|pre|] == pre;
      assert pre + post == pre;
    } else {
      var front := post[..|post| - 1];
      var with, without := pre + [Overflow] + post, pre + post;
      assert with[..|with| - 1] == pre + [Overflow] + front;
      assert without[..|without| - 1] == pre + front;
      assert with[|with| - 1] == without[|without| - 1];
      OverflowIsTransparent(pre, front, p);
    }
  }

  /** After an overflow the loop goes on: the next packet that can be decided
      gets its verdict, appended after the earlier ones. */
  lemma PacketAfterOverflowDecided(pre: seq<Event>, h: Headers, p: Pipeline)
    requires Run(pre, p).stop == Running && Decide(h, p).Success?
    ensures var s := Run(pre + [Overflow, Packet(h)], p);
      s == LoopState(Run(pre, p).verdicts + [Decide(h, p).value], Run(pre, p).overflows + 1, Running)
  {
    var mid := pre + [Overflow];
    var events := mid + [Packet(h)];
    assert pre + [Overflow, Packet(h)] == events;
    assert mid[..|pre|] == pre;
    var s0 := Run(pre, p);
    var s1 := s0.(overflows := s0.overflows + 1);
    assert Run(mid, p) == s1;
    assert events[..|mid|] == mid;
    assert Run(events, p) == s1.(verdicts := s1.verdicts + [Decide(h, p).value]);
  }

  /** With as many column names as values and a width-preserving transform,
      every packet gets a verdict, in order, and every overflow is logged. */
  lemma {:induction false} ServesEveryPacket(events: seq<Event>, p: Pipeline)
    requires |p.columns| == |SCHEMA| && WidthPreserving(p)
    ensures Run(events, p).stop == Running
    ensures |Run(events, p).verdicts| == |Packets(events)|
    ensures Run(events, p).overflows == Overflows(events)
    ensures forall i :: 0 <= i < |Packets(events)| ==>
              Decide(Packets(events)[i], p) == Success(Run(events, p).verdicts[i])
  {
    VerdictsFollowPackets(events, p);
  }

  /** With a column count other than the vector's, no verdict is ever issued:
      the first packet crashes the loop with a shape error, and until then
      only overflows are logged. */
  lemma {:induction false} MismatchedColumnsNeverDecide(events: seq<Event>, p: Pipeline)
    requires |p.columns| != |SCHEMA|
    ensures Run(events, p).verdicts == []
    ensures Run(events, p).stop.Crashed? <==> |Packets(events)| > 0
    ensures Run(events, p).stop.Crashed? ==>
              Run(events, p).stop.error == ShapeMismatch(|p.columns|, |SCHEMA|)
  {
    if events != [] {
      MismatchedColumnsNeverDecide(events[..|events| - 1], p);
    }
  }

  /** The program's own column list crashes the loop at the first packet. */
  lemma ShippedColumnsNeverDecide(events: seq<Event>, transform: Frame<int> -> seq<real>,
                                  predict: Frame<real> -> int, host: ByteOrder)
    ensures var s := Run(events, Pipeline(SHIPPED_COLUMNS, transform, predict, host));
      s.verdicts == [] && (s.stop.Crashed? <==> |Packets(events)| > 0) &&
      (s.stop.Crashed? ==> s.stop.error == ShapeMismatch(10, 19))
  {
    MismatchedColumnsNeverDecide(events, Pipeline(SHIPPED_COLUMNS, transform, predict, host));
  }

  /** The builder's own labels, with a width-preserving transform, give every
      packet its verdict. */
  lemma IntendedColumnsDecideEveryPacket(events: seq<Event>, transform: Frame<int> -> seq<real>,
                                         predict: Frame<real> -> int, host: ByteOrder)
    requires WidthPreserving(Pipeline(INTENDED_COLUMNS, transform, predict, host))
    ensures var s := Run(events, Pipeline(INTENDED_COLUMNS, transform, predict, host));
      s.stop == Running && |s.verdicts| == |Packets(events)| && s.overflows == Overflows(events)
  {
    ServesEveryPacket(events, Pipeline(INTENDED_COLUMNS, transform, predict, host));
  }
}
