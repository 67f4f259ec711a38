/** Broadcast helpers: the bounded enqueue-or-drop channel send, the
    per-recipient chat filter tag, and the fan-out of one message map. */
module Broadcast {
  import opened Models
  import opened Board

  /** The channel buffer after offering `msg`. */
  function Enqueue(queue: seq<Payload>, capacity: nat, msg: Payload): seq<Payload>
  {
    if |queue| < capacity then queue + [msg] else queue
  }

  /** A send never overfills the buffer, keeps what was queued, and either
      appends the message or leaves the buffer exactly as it was. */
  lemma EnqueueKeepsBound(queue: seq<Payload>, capacity: nat, msg: Payload)
    requires |queue| <= capacity
    ensures |Enqueue(queue, capacity, msg)| <= capacity
    ensures queue <= Enqueue(queue, capacity, msg)
    ensures Enqueue(queue, capacity, msg) == queue + [msg] <==> |queue| < capacity
    ensures Enqueue(queue, capacity, msg) == queue <==> |queue| == capacity
  {
  }

  /** The channel buffer after offering each of `msgs` in turn. */
  function EnqueueAll(queue: seq<Payload>, capacity: nat, msgs: seq<Payload>): seq<Payload>
    decreases |msgs|
  {
    if msgs == [] then queue
    else Enqueue(EnqueueAll(queue, capacity, msgs[..|msgs| - 1]), capacity, msgs[|msgs| - 1])
  }

  lemma EnqueueAllSnoc(queue: seq<Payload>, capacity: nat, msgs: seq<Payload>, msg: Payload)
    ensures EnqueueAll(queue, capacity, msgs + [msg]) == Enqueue(EnqueueAll(queue, capacity, msgs), capacity, msg)
  {
    assert (msgs + [msg])[..|msgs|] == msgs;
  }

  /** Offering several messages keeps what was queued and appends the longest
      prefix of them that fits: later messages are dropped, never reordered. */
  lemma {:induction false} EnqueueAllTakes(queue: seq<Payload>, capacity: nat, msgs: seq<Payload>)
    requires |queue| <= capacity
    ensures var n := if |msgs| <= capacity - |queue| then |msgs| else capacity - |queue|;
      EnqueueAll(queue, capacity, msgs) == queue + msgs[..n]
    decreases |msgs|
  {
    if msgs != [] {
      var init := msgs[..|msgs| - 1];
      EnqueueAllTakes(queue, capacity, init);
      assert init[..|init|] == init;
      var n := if |init| <= capacity - |queue| then |init| else capacity - |queue|;
      assert msgs[..n] == init[..n];
      if |init| < capacity - |queue| {
        assert msgs[..n + 1] == init + [msgs[|msgs| - 1]];
      }
    }
  }

  /** Non-blocking publish: enqueue when the buffer has room, otherwise drop. */
  method SendMsgToChannel(g: GameBoard, msg: Payload)
    modifies g`broadcast
    ensures g.broadcast == Enqueue(old(g.broadcast), g.broadcastCapacity, msg)
  {
    if |g.broadcast| < g.broadcastCapacity {
      g.broadcast := g.broadcast + [msg];
    }
  }

  /** A chat map ("CM") whose sender is the given recipient. */
  predicate IsOwnChat(entries: map<string, Value>, playerIndex: int) {
    && "Type" in entries && entries["Type"] == VStr("CM")
    && "SenderIndex" in entries && entries["SenderIndex"] == VInt(playerIndex)
  }

  /** Tags the sender's own chat echo with Filter = true, in place on the shared map. */
  method CheckForPlayer(msg: Payload, playerIndex: int) returns (r: Payload)
    modifies if msg.Dict? then {msg.m} else {}
    ensures r == msg
    ensures msg.Dict? && IsOwnChat(old(msg.m.entries), playerIndex) ==>
      msg.m.entries == old(msg.m.entries)["Filter" := VBool(true)]
    ensures msg.Dict? && !IsOwnChat(old(msg.m.entries), playerIndex) ==>
      msg.m.entries == old(msg.m.entries)
    ensures msg.Dict? ==> forall k :: k != "Filter" ==>
      (k in msg.m.entries <==> k in old(msg.m.entries)) &&
      (k in msg.m.entries ==> msg.m.entries[k] == old(msg.m.entries)[k])
  {
    if !msg.Dict? {
      return msg;
    }
    var msgMap := msg.m;
    if !("Type" in msgMap.entries && msgMap.entries["Type"].VStr?) {
      return msg;
    }
    var msgType := msgMap.entries["Type"].s;
    if msgType == "CM" {
      if "SenderIndex" in msgMap.entries && msgMap.entries["SenderIndex"] == VInt(playerIndex) {
        msgMap.entries := msgMap.entries["Filter" := VBool(true)];
      }
    }
    return Dict(msgMap);
  }

  /** One message map written to each registered recipient in turn; `written[k]`
      is the map as serialised for `recipients[k]`. Because the tag is written
      on the shared map, every recipient visited after the sender sees it too. */
  method FanOut(m: MsgMap, recipients: seq<int>) returns (written: seq<map<string, Value>>)
    modifies m
    ensures |written| == |recipients|
    ensures forall k :: 0 <= k < |recipients| ==>
      written[k] == if exists j :: 0 <= j <= k && IsOwnChat(old(m.entries), recipients[j])
                    then old(m.entries)["Filter" := VBool(true)]
                    else old(m.entries)
  {
    written := [];
    var k := 0;
    while k < |recipients|
      invariant 0 <= k <= |recipients|
      invariant |written| == k
      invariant m.entries == if exists j :: 0 <= j < k && IsOwnChat(old(m.entries), recipients[j])
                             then old(m.entries)["Filter" := VBool(true)]
                             else old(m.entries)
      invariant forall i :: 0 <= i < k ==>
        written[i] == if exists j :: 0 <= j <= i && IsOwnChat(old(m.entries), recipients[j])
                      then old(m.entries)["Filter" := VBool(true)]
                      else old(m.entries)
    {
      assert IsOwnChat(m.entries, recipients[k]) == IsOwnChat(old(m.entries), recipients[k]);
      var sent := CheckForPlayer(Dict(m), recipients[k]);
      written := written + [m.entries];
      k := k + 1;
    }
  }
}
