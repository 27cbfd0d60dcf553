/** The transmit queues of the adapter, changed in place, against the steps of FlowControl. */
module FlowDevice {
  import opened FlowControl

  class TxQueues {
    var txPendingList: seq<nat>
    var qmapFlowControlList: seq<nat>
    var qmapFlowControl: bool

    constructor ()
      ensures State() == START.q
    {
      txPendingList, qmapFlowControlList, qmapFlowControl := [], [], false;
    }

    function State(): Queues
      reads this
    {
      Queues(txPendingList, qmapFlowControlList, qmapFlowControl)
    }

    /** MPMAIN_QMAPIsFlowControlledData. */
    method IsFlowControlledData(packet: nat) returns (flowControlled: bool)
      modifies this`qmapFlowControlList
      ensures flowControlled == qmapFlowControl
      ensures qmapFlowControlList == old(qmapFlowControlList) + if flowControlled then [packet] else []
    {
      if qmapFlowControl {
        qmapFlowControlList := qmapFlowControlList + [packet];
        return true;
      }
      return false;
    }

    /** The loop of MPTX_MiniportTxPackets: the packets are offered one after the other. */
    method MiniportTxPackets(packets: seq<nat>) returns (startTx: bool)
      modifies this
      ensures startTx == (old(txPendingList) == [])
      ensures qmapFlowControl == old(qmapFlowControl)
      ensures qmapFlowControlList == old(qmapFlowControlList) + if qmapFlowControl then packets else []
      ensures txPendingList == old(txPendingList) + if qmapFlowControl then [] else packets
      ensures State() == OfferAll(old(State()), packets)
    {
      startTx := txPendingList == [];
      ghost var was := State();
      var i := 0;
      while i < |packets|
        invariant i <= |packets|
        invariant OfferAll(was, packets) == OfferAll(State(), packets[i..])
        invariant qmapFlowControl == old(qmapFlowControl)
        invariant qmapFlowControlList == old(qmapFlowControlList) + if qmapFlowControl then packets[..i] else []
        invariant txPendingList == old(txPendingList) + if qmapFlowControl then [] else packets[..i]
      {
        assert packets[i..][0] == packets[i] && packets[i..][1..] == packets[i + 1..];
        assert packets[..i + 1] == packets[..i] + [packets[i]];
        ghost var next := OfferStep(State(), packets[i]);
        var flowControlled := IsFlowControlledData(packets[i]);
        if !flowControlled {
          txPendingList := txPendingList + [packets[i]];
        }
        assert State() == next;
        i := i + 1;
      }
      assert packets[..i] == packets;
    }

    /** MPMAIN_QMAPFlowControlCall: packets are moved one by one, tail first when flow control ends. */
    method FlowControlCall(flowControlled: bool)
      modifies this
      ensures State() == ControlStep(old(State()), flowControlled)
      ensures qmapFlowControl == flowControlled
      ensures flowControlled ==>
                txPendingList == [] && qmapFlowControlList == old(qmapFlowControlList) + old(txPendingList)
      ensures !flowControlled ==>
                qmapFlowControlList == [] && txPendingList == old(qmapFlowControlList) + old(txPendingList)
    {
      ghost var waiting := qmapFlowControlList + txPendingList;
      if flowControlled {
        while txPendingList != []
          invariant qmapFlowControlList + txPendingList == waiting
          decreases |txPendingList|
        {
          var packet := txPendingList[0];
          txPendingList := txPendingList[1..];
          qmapFlowControlList := qmapFlowControlList + [packet];
        }
      } else {
        while qmapFlowControlList != []
          invariant qmapFlowControlList + txPendingList == waiting
          decreases |qmapFlowControlList|
        {
          var packet := qmapFlowControlList[|qmapFlowControlList| - 1];
          qmapFlowControlList := qmapFlowControlList[..|qmapFlowControlList| - 1];
          txPendingList := [packet] + txPendingList;
        }
      }
      qmapFlowControl := flowControlled;
    }

    /** MPMAIN_QMAPPurgeFlowControlledPackets: the packets completed with a failure, in order. */
    method PurgeFlowControlledPackets() returns (failed: seq<nat>)
      modifies this`qmapFlowControlList
      ensures failed == old(qmapFlowControlList) && State() == PurgeStep(old(State())) && qmapFlowControlList == []
    {
      failed := [];
      while qmapFlowControlList != []
        invariant failed + qmapFlowControlList == old(qmapFlowControlList)
        decreases |qmapFlowControlList|
      {
        failed := failed + [qmapFlowControlList[0]];
        qmapFlowControlList := qmapFlowControlList[1..];
      }
    }

    /** One round of MPTX_ProcessPendingTxQueue: the head goes to USB, is failed, or is put back to wait for
        the packets in flight. */
    method ProcessPendingHead(ready: bool, busyListEmpty: bool) returns (sent: seq<nat>, failed: seq<nat>)
      modifies this`txPendingList
      ensures sent == (if ready then Head(old(State())) else [])
      ensures failed == (if !ready && busyListEmpty then Head(old(State())) else [])
      ensures sent + failed + txPendingList == old(txPendingList)
      ensures |sent| == (if ready && old(txPendingList) != [] then 1 else 0)
      ensures |failed| == (if !ready && busyListEmpty && old(txPendingList) != [] then 1 else 0)
      ensures State() == if ready || busyListEmpty then PopStep(old(State())) else old(State())
    {
      sent, failed := [], [];
      if txPendingList != [] {
        var packet := txPendingList[0];
        txPendingList := txPendingList[1..];
        if ready {
          sent := [packet];
        } else if busyListEmpty {
          failed := [packet];
        } else {
          txPendingList := [packet] + txPendingList;
        }
      }
    }
  }

  function OfferAll(q: Queues, packets: seq<nat>): Queues
    decreases |packets|
  {
    if packets == [] then q else OfferAll(OfferStep(q, packets[0]), packets[1..])
  }
}
