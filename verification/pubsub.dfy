/** The metric listener list of `lib/store.ts` (an `EventEmitter` with one
    event): `subscribeToMetrics` registers a handler and hands back its
    unsubscribe, and every published sample is delivered once to each handler
    registered at that moment, in registration order. */
module PubSub {
  import opened Samples

  /** A subscriber's callback, identified by a caller-chosen name. */
  type HandlerId = int

  datatype Delivery = Delivery(handler: HandlerId, sample: Sample)

  /** `emitter.on("metric", h)`: appends, duplicates allowed. */
  function Subscribe(hs: seq<HandlerId>, h: HandlerId): (r: seq<HandlerId>)
    ensures r == hs + [h]
  {
    hs + [h]
  }

  /** `r` is `hs` without its entry at `i`, the last occurrence of `h`. */
  predicate RemovedLatest(hs: seq<HandlerId>, h: HandlerId, r: seq<HandlerId>, i: int) {
    0 <= i < |hs| && hs[i] == h && h !in hs[i + 1..] && r == hs[..i] + hs[i + 1..]
  }

  /** `emitter.off("metric", h)`: removes the most recently added copy of `h`;
      nothing when `h` is not registered. */
  function Unsubscribe(hs: seq<HandlerId>, h: HandlerId): (r: seq<HandlerId>)
    ensures h !in hs ==> r == hs
    ensures h in hs ==> |r| == |hs| - 1 && multiset(r) == multiset(hs) - multiset{h}
    ensures h in hs ==> exists i :: RemovedLatest(hs, h, r, i)
  {
    if |hs| == 0 then hs
    else if hs[|hs| - 1] == h then
      assert hs == hs[..|hs| - 1] + [h];
      assert RemovedLatest(hs, h, hs[..|hs| - 1], |hs| - 1);
      hs[..|hs| - 1]
    else
      var init := hs[..|hs| - 1];
      var x := hs[|hs| - 1];
      var u := Unsubscribe(init, h);
      assert hs == init + [x];
      assert h in hs ==> exists i :: RemovedLatest(hs, h, u + [x], i) by {
        if h in hs {
          assert h in init;
          var i :| RemovedLatest(init, h, u, i);
          RemovedLatestSnoc(init, h, u, x, i);
        }
      }
      u + [x]
  }

  lemma RemovedLatestSnoc(init: seq<HandlerId>, h: HandlerId, u: seq<HandlerId>, x: HandlerId, i: int)
    requires RemovedLatest(init, h, u, i) && x != h
    ensures RemovedLatest(init + [x], h, u + [x], i)
  {
    var hs := init + [x];
    assert hs[i + 1..] == init[i + 1..] + [x];
    assert hs[..i] == init[..i];
  }

  /** A handler registered once is gone after its unsubscribe, and running the
      unsubscribe again changes nothing. */
  lemma UnsubscribeRemovesOnce(hs: seq<HandlerId>, h: HandlerId)
    requires multiset(hs)[h] == 1
    ensures h !in Unsubscribe(hs, h)
    ensures Unsubscribe(Unsubscribe(hs, h), h) == Unsubscribe(hs, h)
  {
    var r := Unsubscribe(hs, h);
    assert multiset(r)[h] == 0;
  }

  /** `emitter.emit("metric", s)`: one delivery per registered handler. */
  function Publish(hs: seq<HandlerId>, s: Sample): (r: seq<Delivery>)
    ensures |r| == |hs|
    ensures forall i :: 0 <= i < |hs| ==> r[i] == Delivery(hs[i], s)
  {
    if |hs| == 0 then [] else Publish(hs[..|hs| - 1], s) + [Delivery(hs[|hs| - 1], s)]
  }
}
