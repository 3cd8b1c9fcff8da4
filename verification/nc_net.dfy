/** Message slots and receive queues (nc_net.c) in hard mode, one thread at a time. */
module Network {
  import opened Words
  import opened VariableSpaces
  import opened Frames
  import opened Machine

  const NC_ENOMSG := 35
  const NO_DEVICE := -9001

  class Net {
    const channels: seq<Channel>
    /** The message space: what `skb` of each slot points to. */
    var slots: seq<Option<Frame>>
    /** The list of each channel, first entry first. */
    var queues: seq<seq<Frame>>

    ghost predicate Valid()
      reads this
    {
      |queues| == |channels|
    }

    constructor (channels: seq<Channel>, messages: nat)
      ensures Valid() && this.channels == channels
      ensures slots == seq(messages, _ => None) && queues == seq(|channels|, _ => [])
    {
      this.channels := channels;
      slots := seq(messages, _ => None);
      queues := seq(|channels|, _ => []);
    }

    method RxBuffEmpty(chan: nat) returns (empty: bool)
      requires Valid() && chan < |channels|
      ensures empty <==> queues[chan] == []
    {
      empty := |queues[chan]| == 0;
    }

    /** One successful read of the receive thread: filter, then add at the front of the list. */
    method Deliver(chan: nat, frame: Frame)
      requires Valid() && chan < |channels|
      modifies this`queues
      ensures Valid()
      ensures queues == if Accepts(channels[chan].peer, frame)
                        then old(queues)[chan := [Truncate(frame)] + old(queues)[chan]] else old(queues)
    {
      var msg := Truncate(frame);
      if Proto(msg) == ETH_P_NC {
        if Src(msg) == channels[chan].peer {
          queues := queues[chan := [msg] + queues[chan]];
        }
      }
    }

    /** CREATE: a fresh frame with the current bytes of the variable; an unsent message in the slot is lost. */
    method CreateMessageFromVar(space: VariableSpace, varId: nat, msgId: nat, junk: Junk)
      requires space.Valid() && this !in space.Repr && varId < |space.at| && msgId < |slots|
      modifies this`slots
      ensures slots == old(slots)[msgId := Some(Assemble(junk, space.Contents()[varId]))]
    {
      var data := space.Get(varId);
      slots := slots[msgId := Some(Assemble(junk, data))];
    }

    /** SEND: `ret` is the driver's answer; the slot is empty afterwards whatever the driver says. */
    method SendMessage(chan: nat, msgId: nat, xmit: int) returns (ret: int, sent: Option<Frame>)
      requires Valid() && chan < |channels| && msgId < |slots|
      modifies this`slots
      ensures channels[chan].device == None ==> ret == NO_DEVICE && sent == None && slots == old(slots)
      ensures channels[chan].device != None && old(slots)[msgId] == None ==>
        ret == -NC_ENOIF && sent == None && slots == old(slots)
      ensures channels[chan].device != None && old(slots)[msgId] != None ==>
        && ret == xmit
        && sent == Some(Address(old(slots)[msgId].value, BROADCAST, channels[chan].device.value))
        && slots == old(slots)[msgId := None]
    {
      sent := None;
      match channels[chan].device {
        case None =>
          ret := NO_DEVICE;
        case Some(dev) =>
          match slots[msgId] {
            case None =>
              ret := -NC_ENOIF;
            case Some(skb) =>
              sent := Some(Address(skb, BROADCAST, dev));
              ret := xmit;
              slots := slots[msgId := None];
          }
      }
    }

    /** RECEIVE: the first entry of the list goes into the variable, without its header. */
    method ReceiveMessageToVar(space: VariableSpace, chan: nat, varId: nat) returns (ret: int)
      requires Valid() && space.Valid() && this !in space.Repr && chan < |channels| && varId < |space.at|
      requires forall k :: 0 <= k < |queues[chan]| ==> |queues[chan][k]| <= ETH_DATA_LEN
      modifies this`queues, space.at[varId].Repr()
      ensures Valid() && space.Valid()
      ensures ret < 0 <==> old(queues)[chan] == []
      ensures ret < 0 ==> queues == old(queues) && space.Contents() == old(space.Contents())
      ensures ret >= 0 ==>
        && queues == old(queues)[chan := old(queues)[chan][1..]]
        && space.Contents() == old(space.Contents())[varId := Payload(old(queues)[chan][0])]
    {
      if |queues[chan]| == 0 {
        return -NC_ENOMSG;
      }
      var msg := queues[chan][0];
      space.Set(varId, Payload(msg));
      queues := queues[chan := queues[chan][1..]];
      ret := 0;
    }
  }
}
