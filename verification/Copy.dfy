/** Copying records through a bounded channel: a producer that reads and sends, a consumer
    that drains, transforms and persists, as interleaved atomic steps. */
module Copy {
  import opened Base

  /** Where the consumer is.  `Measured` holds the channel length read after a timeout and
      the number of records sent by then; `Broken` the record that could not be transformed. */
  datatype Consumer<R> =
    | Idle
    | Waiting
    | Received
    | Measured(count: nat, seen: nat)
    | Draining(left: nat)
    | Persisting
    | Finished(seen: nat)
    | Broken(record: R)
    | Rejected

  datatype Sys<R, I> = Sys(sent: seq<R>, channel: seq<R>, reading: bool, fetched: bool,
                           consumer: Consumer<R>, consumed: seq<R>, batch: seq<I>, persisted: seq<I>)

  type Transformer<!R, I> = R -> Option<seq<I>>

  function Capacity(batchSize: nat): nat {
    (if batchSize == 0 then 1 else batchSize) + 1
  }

  function Init<R, I>(): Sys<R, I> {
    Sys([], [], true, false, Idle, [], [], [])
  }

  // ---- Steps of the producer ----

  ghost predicate Send<R, I>(batchSize: nat, s: Sys<R, I>, t: Sys<R, I>) {
    && s.reading && |s.channel| < Capacity(batchSize) && |t.sent| == |s.sent| + 1
    && var r := t.sent[|s.sent|];
       t == s.(sent := s.sent + [r], channel := s.channel + [r])
  }

  /** Reading ends, with the completion flag set unless reading failed. */
  ghost predicate EndRead<R, I>(s: Sys<R, I>, t: Sys<R, I>) {
    s.reading && t == s.(reading := false, fetched := t.fetched) && (s.fetched ==> t.fetched)
  }

  // ---- Steps of the consumer ----

  /** A new round starts with an empty batch and a look at the channel length. */
  ghost predicate Look<R, I>(s: Sys<R, I>, t: Sys<R, I>) {
    s.consumer.Idle?
    && t == s.(batch := [], consumer := if |s.channel| == 0 then Waiting else Draining(|s.channel|))
  }

  /** Takes the first record; `next` is where the consumer goes if it can be transformed. */
  ghost predicate Take<R, I>(f: Transformer<R, I>, s: Sys<R, I>, t: Sys<R, I>, next: Consumer<R>) {
    && s.channel != []
    && var r := s.channel[0];
       if f(r).Some? then
         t == s.(channel := s.channel[1..], consumed := s.consumed + [r], batch := s.batch + f(r).value, consumer := next)
       else t == s.(channel := s.channel[1..], consumer := Broken(r))
  }

  ghost predicate Receive<R, I>(f: Transformer<R, I>, s: Sys<R, I>, t: Sys<R, I>) {
    s.consumer.Waiting? && Take(f, s, t, Received)
  }

  ghost predicate Measure<R, I>(s: Sys<R, I>, t: Sys<R, I>) {
    s.consumer.Received? && t == s.(consumer := Draining(|s.channel|))
  }

  ghost predicate TimeOut<R, I>(s: Sys<R, I>, t: Sys<R, I>) {
    s.consumer.Waiting? && t == s.(consumer := Measured(|s.channel|, |s.sent|))
  }

  /** The completion flag is read after the channel length. */
  ghost predicate ReadFlag<R, I>(batchSize: nat, s: Sys<R, I>, t: Sys<R, I>) {
    && s.consumer.Measured?
    && t == s.(consumer :=
                 if s.fetched then
                   if s.batch == [] && s.consumer.count == 0 then Finished(s.consumer.seen)
                   else Draining(s.consumer.count)
                 else if |s.batch| < Capacity(batchSize) - 1 then Idle
                 else Draining(s.consumer.count))
  }

  ghost predicate Drain<R, I>(f: Transformer<R, I>, s: Sys<R, I>, t: Sys<R, I>) {
    && s.consumer.Draining?
    && if s.consumer.left == 0 then t == s.(consumer := Persisting)
       else Take(f, s, t, Draining(s.consumer.left - 1))
  }

  ghost predicate Persist<R, I>(s: Sys<R, I>, t: Sys<R, I>) {
    && s.consumer.Persisting?
    && (t == s.(persisted := s.persisted + s.batch, batch := [], consumer := Idle)
        || (s.batch != [] && t == s.(consumer := Rejected)))
  }

  ghost predicate Step<R, I>(batchSize: nat, f: Transformer<R, I>, s: Sys<R, I>, t: Sys<R, I>) {
    || Send(batchSize, s, t) || EndRead(s, t)
    || Look(s, t) || Receive(f, s, t) || Measure(s, t) || TimeOut(s, t)
    || ReadFlag(batchSize, s, t) || Drain(f, s, t) || Persist(s, t)
  }

  ghost predicate IsRun<R, I>(batchSize: nat, f: Transformer<R, I>, ss: seq<Sys<R, I>>) {
    && |ss| > 0
    && (if |ss| == 1 then ss[0] == Init()
        else IsRun(batchSize, f, ss[..|ss| - 1]) && Step(batchSize, f, ss[|ss| - 2], ss[|ss| - 1]))
  }

  // ---- The invariant ----

  /** What transforming the records one after the other yields. */
  function Transformed<R, I>(f: Transformer<R, I>, records: seq<R>): seq<I> {
    if records == [] then []
    else
      var last := f(records[|records| - 1]);
      Transformed(f, records[..|records| - 1]) + (if last.Some? then last.value else [])
  }

  /** The record in hand when transforming it failed. */
  function InHand<R>(c: Consumer<R>): seq<R> {
    if c.Broken? then [c.record] else []
  }

  ghost predicate Inv<R, I>(batchSize: nat, f: Transformer<R, I>, s: Sys<R, I>) {
    // nothing is lost, duplicated or reordered
    && s.sent == s.consumed + InHand(s.consumer) + s.channel
    && Transformed(f, s.consumed) == s.persisted + s.batch
    && |s.channel| <= Capacity(batchSize)
    // a drain never asks for more than there is
    && (s.consumer.Draining? ==> s.consumer.left <= |s.channel|)
    && (s.consumer.Measured? ==> s.consumer.count <= |s.channel| && s.consumer.seen == |s.consumed| + s.consumer.count)
    && (s.consumer.Finished? ==> s.consumer.seen == |s.consumed| && s.batch == [] && s.fetched && !s.reading)
    && (s.consumer.Idle? || s.consumer.Waiting? || s.consumer.Measured? ==> s.batch == [])
    && (s.fetched ==> !s.reading)
  }

  lemma TransformedNext<R, I>(f: Transformer<R, I>, records: seq<R>, r: R)
    ensures Transformed(f, records + [r]) == Transformed(f, records) + (if f(r).Some? then f(r).value else [])
  {
    assert (records + [r])[..|records|] == records;
  }

  lemma MovedAlong<R>(sent: seq<R>, consumed: seq<R>, channel: seq<R>)
    requires channel != [] && sent == consumed + [] + channel
    ensures sent == consumed + [channel[0]] + channel[1..] == consumed + [channel[0]] + [] + channel[1..]
  {
  }

  lemma TakeKeepsInv<R, I>(batchSize: nat, f: Transformer<R, I>, s: Sys<R, I>, t: Sys<R, I>, next: Consumer<R>)
    requires Inv(batchSize, f, s) && Take(f, s, t, next)
    requires s.consumer.Waiting? || s.consumer.Draining?
    requires next == Received || (s.consumer.Draining? && s.consumer.left > 0 && next == Draining(s.consumer.left - 1))
    ensures Inv(batchSize, f, t)
  {
    var r := s.channel[0];
    MovedAlong(s.sent, s.consumed, s.channel);
    TransformedNext(f, s.consumed, r);
    if f(r).Some? {
      assert s.persisted + s.batch + f(r).value == s.persisted + (s.batch + f(r).value);
      assert InHand(next) == [];
    } else {
      assert t.consumed == s.consumed && t.batch == s.batch;
    }
  }

  lemma SendKeepsInv<R, I>(batchSize: nat, f: Transformer<R, I>, s: Sys<R, I>, t: Sys<R, I>)
    requires Inv(batchSize, f, s) && Send(batchSize, s, t)
    ensures Inv(batchSize, f, t)
  {
    var r := t.sent[|s.sent|];
    var taken := s.consumed + InHand(s.consumer);
    assert taken + s.channel + [r] == taken + (s.channel + [r]);
  }

  lemma DrainKeepsInv<R, I>(batchSize: nat, f: Transformer<R, I>, s: Sys<R, I>, t: Sys<R, I>)
    requires Inv(batchSize, f, s) && Drain(f, s, t)
    ensures Inv(batchSize, f, t)
  {
    if s.consumer.left > 0 {
      TakeKeepsInv(batchSize, f, s, t, Draining(s.consumer.left - 1));
    }
  }

  lemma PersistKeepsInv<R, I>(batchSize: nat, f: Transformer<R, I>, s: Sys<R, I>, t: Sys<R, I>)
    requires Inv(batchSize, f, s) && Persist(s, t)
    ensures Inv(batchSize, f, t)
  {
    assert s.persisted + s.batch + [] == s.persisted + s.batch;
  }

  /** Steps that look at lengths and flags without moving a record. */
  ghost predicate Observe<R, I>(batchSize: nat, s: Sys<R, I>, t: Sys<R, I>) {
    Look(s, t) || Measure(s, t) || TimeOut(s, t) || ReadFlag(batchSize, s, t)
  }

  lemma ObserveKeepsInv<R, I>(batchSize: nat, f: Transformer<R, I>, s: Sys<R, I>, t: Sys<R, I>)
    requires Inv(batchSize, f, s) && Observe(batchSize, s, t)
    ensures Inv(batchSize, f, t)
  {
    assert t.persisted == s.persisted && t.batch == s.batch && t.consumed == s.consumed && t.channel == s.channel;
    assert InHand(t.consumer) == [] == InHand(s.consumer);
  }

  lemma StepKeepsInv<R, I>(batchSize: nat, f: Transformer<R, I>, s: Sys<R, I>, t: Sys<R, I>)
    requires Inv(batchSize, f, s) && Step(batchSize, f, s, t)
    ensures Inv(batchSize, f, t)
  {
    if Send(batchSize, s, t) {
      SendKeepsInv(batchSize, f, s, t);
    } else if Receive(f, s, t) {
      TakeKeepsInv(batchSize, f, s, t, Received);
    } else if Drain(f, s, t) {
      DrainKeepsInv(batchSize, f, s, t);
    } else if Persist(s, t) {
      PersistKeepsInv(batchSize, f, s, t);
    } else if Observe(batchSize, s, t) {
      ObserveKeepsInv(batchSize, f, s, t);
    } else {
      assert EndRead(s, t);
    }
  }

  /** For every interleaving: what was sent is what was consumed, then the record in hand,
      then the channel content, in order; what was consumed is persisted or in the batch; the
      channel stays within its capacity. */
  lemma {:induction false} RunKeepsInv<R, I>(batchSize: nat, f: Transformer<R, I>, ss: seq<Sys<R, I>>)
    requires IsRun(batchSize, f, ss)
    ensures Inv(batchSize, f, ss[|ss| - 1])
    decreases |ss|
  {
    if |ss| > 1 {
      RunKeepsInv(batchSize, f, ss[..|ss| - 1]);
      StepKeepsInv(batchSize, f, ss[|ss| - 2], ss[|ss| - 1]);
    }
  }

  /** A draining consumer can always take its next step: it never blocks on the channel. */
  lemma DrainNeverBlocks<R, I>(batchSize: nat, f: Transformer<R, I>, ss: seq<Sys<R, I>>)
      returns (t: Sys<R, I>)
    requires IsRun(batchSize, f, ss) && ss[|ss| - 1].consumer.Draining?
    ensures Drain(f, ss[|ss| - 1], t)
  {
    RunKeepsInv(batchSize, f, ss);
    var s := ss[|ss| - 1];
    if s.consumer.left == 0 {
      t := s.(consumer := Persisting);
    } else {
      var r := s.channel[0];
      t := if f(r).Some? then
             s.(channel := s.channel[1..], consumed := s.consumed + [r], batch := s.batch + f(r).value,
                consumer := Draining(s.consumer.left - 1))
           else s.(channel := s.channel[1..], consumer := Broken(r));
    }
  }

  /** When the consumer finishes, exactly the records sent before its last look at the channel
      length have been persisted: all of them if and only if none was sent between that look
      and the look at the completion flag. */
  lemma FinishedPersistsSeen<R, I>(batchSize: nat, f: Transformer<R, I>, ss: seq<Sys<R, I>>)
    requires IsRun(batchSize, f, ss) && ss[|ss| - 1].consumer.Finished?
    ensures var s := ss[|ss| - 1]; var seen := s.consumer.seen;
      && seen <= |s.sent| && s.persisted == Transformed(f, s.sent[..seen])
      && (s.channel == [] <==> seen == |s.sent|)
  {
    RunKeepsInv(batchSize, f, ss);
    var s := ss[|ss| - 1];
    assert s.sent[..|s.consumed|] == s.consumed;
    assert s.persisted + [] == s.persisted;
  }

  /** A run in which the record is sent between the two looks. */
  function Lost<R, I>(r: R, k: nat): Sys<R, I> {
    var looked := Init<R, I>().(consumer := Waiting);
    var sent := looked.(consumer := Measured(0, 0), sent := [r], channel := [r]);
    var ended := sent.(reading := false, fetched := true);
    if k == 0 then Init()
    else if k == 1 then looked
    else if k == 2 then looked.(consumer := Measured(0, 0))
    else if k == 3 then sent
    else if k == 4 then ended
    else ended.(consumer := Finished(0))
  }

  lemma LostStep<R, I>(batchSize: nat, f: Transformer<R, I>, r: R, k: nat)
    requires k < 5
    ensures Step(batchSize, f, Lost(r, k), Lost(r, k + 1))
  {
    var s, t := Lost<R, I>(r, k), Lost<R, I>(r, k + 1);
    if k == 2 {
      assert [] + [r] == [r];
      assert Send(batchSize, s, t);
    } else {
      assert Look(s, t) || TimeOut(s, t) || EndRead(s, t) || ReadFlag(batchSize, s, t);
    }
  }

  function Losses<R, I>(r: R, n: nat): (ss: seq<Sys<R, I>>)
    ensures |ss| == n + 1 && ss[n] == Lost(r, n)
  {
    if n == 0 then [Lost(r, 0)] else Losses(r, n - 1) + [Lost(r, n)]
  }

  lemma {:induction false} LossesRun<R, I>(batchSize: nat, f: Transformer<R, I>, r: R, n: nat)
    requires n <= 5
    ensures IsRun(batchSize, f, Losses(r, n))
  {
    if n > 0 {
      LossesRun(batchSize, f, r, n - 1);
      LostStep(batchSize, f, r, n - 1);
      Extend(batchSize, f, Losses(r, n - 1), Lost(r, n));
    }
  }

  /** And that can happen: a record sent in between stays in the channel for good. */
  lemma FinishedCanLoseARecord<R, I>(batchSize: nat, f: Transformer<R, I>, r: R) returns (ss: seq<Sys<R, I>>)
    ensures IsRun(batchSize, f, ss)
    ensures var s := ss[|ss| - 1]; s.consumer.Finished? && s.sent == [r] == s.channel && s.persisted == []
  {
    LossesRun(batchSize, f, r, 5);
    ss := Losses(r, 5);
  }

  lemma Extend<R, I>(batchSize: nat, f: Transformer<R, I>, ss: seq<Sys<R, I>>, t: Sys<R, I>)
    requires IsRun(batchSize, f, ss) && Step(batchSize, f, ss[|ss| - 1], t)
    ensures IsRun(batchSize, f, ss + [t])
  {
    assert (ss + [t])[..|ss|] == ss;
  }
}
