/** The module-level state of `lib/store.ts` — sample buffer, device registry
    and metric listeners — as one record threaded through its operations. */
module Store {
  import opened Wrappers
  import opened Seqs
  import opened Samples
  import opened SampleBuffer
  import opened Registry
  import opened PubSub

  datatype State = State(samples: seq<Sample>, devices: seq<Device>, listeners: seq<HandlerId>)

  const Initial := State([], [], [])

  /** `addMetricSample(s)` at instant `now`: append to the buffer, mark the
      sample's device present under the sample's hostname, and deliver the
      sample to every registered listener. */
  function AddMetricSample(st: State, s: Sample, now: int): (r: (State, seq<Delivery>))
    ensures r.0.samples == LastN(st.samples + [s], MaxSamples)
    ensures |r.0.samples| <= MaxSamples && r.0.samples[|r.0.samples| - 1] == s
    ensures r.0.devices == TouchDevicePresence(st.devices, s.deviceId, Some(s.hostname), now)
    ensures HasId(st.devices, s.deviceId) ==>
      GetDevice(r.0.devices, s.deviceId).Some? && GetDevice(r.0.devices, s.deviceId).value.lastSeenAt == Some(now)
    ensures r.0.listeners == st.listeners
    ensures |r.1| == |st.listeners|
    ensures forall i :: 0 <= i < |r.1| ==> r.1[i] == Delivery(st.listeners[i], s)
  {
    var devices := TouchDevicePresence(st.devices, s.deviceId, Some(s.hostname), now);
    assert HasId(st.devices, s.deviceId) ==> devices[FindById(st.devices, s.deviceId).value].id == s.deviceId;
    (State(Push(st.samples, s), devices, st.listeners), Publish(st.listeners, s))
  }

  /** What happens to the store, in order: ingests, subscriptions and the
      invocation of a subscription's unsubscribe. */
  datatype Event = Ingest(sample: Sample, now: int) | Subscribed(h: HandlerId) | Unsubscribed(h: HandlerId)

  /** A state together with the deliveries made on the way to it. */
  datatype Trace = Trace(state: State, deliveries: seq<Delivery>)

  function Step(st: State, e: Event): (t: Trace)
  {
    match e
    case Ingest(s, now) => var (st', ds) := AddMetricSample(st, s, now); Trace(st', ds)
    case Subscribed(h) => Trace(st.(listeners := Subscribe(st.listeners, h)), [])
    case Unsubscribed(h) => Trace(st.(listeners := Unsubscribe(st.listeners, h)), [])
  }

  /** What one step does to the listeners, and whom it delivers to. */
  lemma StepListeners(st: State, e: Event)
    ensures Step(st, e).state.listeners ==
      match e
      case Ingest(_, _) => st.listeners
      case Subscribed(h) => Subscribe(st.listeners, h)
      case Unsubscribed(h) => Unsubscribe(st.listeners, h)
    ensures forall d :: d in Step(st, e).deliveries ==>
      e.Ingest? && d.sample == e.sample && d.handler in st.listeners
  {
    if e.Ingest? {
      var ds := Step(st, e).deliveries;
      forall d | d in ds
        ensures d.sample == e.sample && d.handler in st.listeners
      {
        var i :| 0 <= i < |ds| && ds[i] == d;
      }
    }
  }

  /** Runs events in order; returns the final state and all deliveries made. */
  function Run(st: State, evs: seq<Event>): (t: Trace)
    decreases |evs|
  {
    if |evs| == 0 then Trace(st, [])
    else
      var before := Run(st, evs[..|evs| - 1]);
      var last := Step(before.state, evs[|evs| - 1]);
      Trace(last.state, before.deliveries + last.deliveries)
  }

  /** A handler that is not registered and is not subscribed again receives
      nothing, whatever is ingested. */
  lemma {:induction false} UnregisteredReceivesNothing(st: State, evs: seq<Event>, h: HandlerId)
    requires h !in st.listeners
    requires forall i :: 0 <= i < |evs| ==> evs[i] != Subscribed(h)
    ensures h !in Run(st, evs).state.listeners
    ensures forall d :: d in Run(st, evs).deliveries ==> d.handler != h
    decreases |evs|
  {
    if |evs| > 0 {
      var init := evs[..|evs| - 1];
      var e := evs[|evs| - 1];
      UnregisteredReceivesNothing(st, init, h);
      var before := Run(st, init);
      StepListeners(before.state, e);
      var ls := before.state.listeners;
      var after := Step(before.state, e);
      if e.Unsubscribed? && e.h in ls {
        var r := Unsubscribe(ls, e.h);
        assert multiset(r) == multiset(ls) - multiset{e.h};
        assert multiset(ls)[h] == 0;
        assert multiset(r)[h] == 0;
        assert h !in after.state.listeners;
      }
      assert Run(st, evs).deliveries == before.deliveries + after.deliveries;
    }
  }

  /** Once a handler registered a single time runs its unsubscribe, it receives
      no further samples unless it subscribes again. */
  lemma NoDeliveryAfterUnsubscribe(st: State, h: HandlerId, evs: seq<Event>)
    requires multiset(st.listeners)[h] == 1
    requires forall i :: 0 <= i < |evs| ==> evs[i] != Subscribed(h)
    ensures forall d :: d in Run(Step(st, Unsubscribed(h)).state, evs).deliveries ==> d.handler != h
  {
    UnsubscribeRemovesOnce(st.listeners, h);
    UnregisteredReceivesNothing(Step(st, Unsubscribed(h)).state, evs, h);
  }

  /** No replay: every delivery made while running `evs` carries a sample
      ingested during `evs`. Taking `st` as the state just after a sample was
      published, a listener that subscribes from then on never receives that
      publication unless the same sample is ingested again. */
  lemma {:induction false} DeliveriesComeFromIngests(st: State, evs: seq<Event>)
    ensures forall d :: d in Run(st, evs).deliveries ==>
      exists i :: 0 <= i < |evs| && evs[i].Ingest? && evs[i].sample == d.sample
    decreases |evs|
  {
    if |evs| > 0 {
      var init := evs[..|evs| - 1];
      var e := evs[|evs| - 1];
      DeliveriesComeFromIngests(st, init);
      var before := Run(st, init);
      StepListeners(before.state, e);
      forall d | d in Run(st, evs).deliveries
        ensures exists i :: 0 <= i < |evs| && evs[i].Ingest? && evs[i].sample == d.sample
      {
        if d in before.deliveries {
          var i :| 0 <= i < |init| && init[i].Ingest? && init[i].sample == d.sample;
          assert evs[i] == init[i];
        } else {
          assert evs[|evs| - 1] == e;
        }
      }
    }
  }

  /** A listener registered once at an ingest receives exactly one
      notification for that sample, at that moment. */
  lemma RegisteredReceivesOnce(st: State, s: Sample, now: int, h: HandlerId)
    requires multiset(st.listeners)[h] == 1
    ensures multiset(Step(st, Ingest(s, now)).deliveries)[Delivery(h, s)] == 1
  {
    PublishCounts(st.listeners, s, h);
  }

  lemma {:induction false} PublishCounts(hs: seq<HandlerId>, s: Sample, h: HandlerId)
    ensures multiset(Publish(hs, s))[Delivery(h, s)] == multiset(hs)[h]
  {
    if |hs| > 0 {
      var init := hs[..|hs| - 1];
      PublishCounts(init, s, h);
      assert hs == init + [hs[|hs| - 1]];
      assert Publish(hs, s) == Publish(init, s) + [Delivery(hs[|hs| - 1], s)];
      assert multiset(Publish(hs, s)) == multiset(Publish(init, s)) + multiset{Delivery(hs[|hs| - 1], s)};
      assert multiset(hs) == multiset(init) + multiset{hs[|hs| - 1]};
    }
  }
}
