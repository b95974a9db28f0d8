// What a bus makes of a frame that is sent on it, over whole runs (Send in vbus/src/bus/eth_bus.cpp
// and vbus/src/bus/can_bus.cpp).
module Sends {
  import opened Bytes
  import opened Capture
  import opened Delay
  import opened Engine
  import opened FiringOrder
  import opened Taps

  // The step that created the bus that now has the name, read off the commands.
  function Maker(tr: seq<Event>, b: string): (r: Option<Id>)
    ensures r.Some? ==> r.value < |tr| && tr[r.value].Create? && tr[r.value].name == b
  {
    if tr == [] then None
    else
      var earlier := Maker(Before(tr), b);
      if Last(tr).Create? && Last(tr).name == b && earlier.None? then Some(|tr| - 1)
      else if Last(tr) == Delete(b) then None
      else earlier
  }

  lemma {:induction false} MakerIsBus(tr: seq<Event>, b: string)
    ensures Maker(tr, b) == if b in BusesAt(tr) then Some(BusesAt(tr)[b].hub.id) else None
  {
    if tr != [] {
      MakerIsBus(Before(tr), b);
      BusesStep(tr);
      MakerStep(BusesAt(Before(tr)), Last(tr), |tr| - 1, b);
    }
  }

  lemma MakerStep(buses: map<string, Wrap>, e: Event, step: Id, b: string)
    ensures var next := NextBuses(buses, e, step);
            && (b in next <==> (e.Create? && e.name == b) || (e != Delete(b) && b in buses))
            && (b in next ==> next[b].hub.id == if b in buses then buses[b].hub.id else step)
  {}

  predicate OnEthernet(tr: seq<Event>, b: string) {
    Maker(tr, b).Some? && tr[Maker(tr, b).value].kind.Eth?
  }

  // A frame as it leaves when `e` sends it after the run `past`: the tag and the payload it was given,
  // the protocol number that its bus uses, and the reading that the bus makes for the time stamp.
  function AsSent(past: seq<Event>, e: Event): Frame
    requires e.Send?
  {
    if OnEthernet(past, e.name) then Frame(1, e.frame.tag, e.first % TWO64, e.frame.payload)
    else Frame(if e.frame.proto == 3 then 3 else 2, e.frame.tag, e.second % TWO64, e.frame.payload)
  }

  // Its stamp lies between the two readings of its send.
  lemma StampBetween(past: seq<Event>, e: Event)
    requires e.Send? && e.first <= e.second < TWO63
    ensures e.first <= AsSent(past, e).tsNs <= e.second
  {}

  lemma AcceptedOn(tr: seq<Event>, j: nat) returns (h: Hub)
    requires AcceptedAt(tr, j)
    ensures PostedAt(tr, j) == Posted(j, h, tr[j].src, tr[j].frame, tr[j].first, tr[j].second)
    ensures h.id < j && tr[h.id] == Create(tr[j].name, h.kind, h.rate)
    ensures Maker(tr[..j], tr[j].name) == Some(h.id)
  {
    h := BusesAt(tr[..j])[tr[j].name].hub;
    HubWasCreated(tr[..j], tr[j].name);
    MakerIsBus(tr[..j], tr[j].name);
  }

  /** Every accepted send posts one delivery, of the bus that its name stood for, with the tag and the
      payload that were given to it. On an Ethernet hub the frame becomes protocol 1 and bears the first
      of the two readings of the clock; on a CAN bus it stays protocol 3 or else becomes 2, and bears the
      second reading. */
  lemma DeliversAsSent(tr: seq<Event>, j: nat)
    requires Valid(tr) && AcceptedAt(tr, j)
    ensures var d, e := PostedAt(tr, j), tr[j];
            && d.id == j && d.bus < j && tr[d.bus].Create? && Maker(tr[..j], e.name) == Some(d.bus)
            && d.frame.tag == e.frame.tag && d.frame.payload == e.frame.payload
            && (tr[d.bus].kind.Eth? ==> d.frame.proto == 1 && d.frame.tsNs == e.first)
            && (tr[d.bus].kind.Can? ==>
                  (d.frame.proto == if e.frame.proto == 3 then 3 else 2) && d.frame.tsNs == e.second)
  {
    var h := AcceptedOn(tr, j);
    ReadsInOrder(tr, j);
  }

  lemma PostedAsSent(tr: seq<Event>, j: nat)
    requires AcceptedAt(tr, j)
    ensures PostedAt(tr, j).frame == AsSent(tr[..j], tr[j])
  {
    var h := AcceptedOn(tr, j);
  }

  // The bits that a payload takes on the wire, with their time in nanoseconds.
  function Bits(kind: Kind, proto: U8, payload: nat): nat {
    if kind.Eth? then 8 * payload + 144 else if proto == 3 then 8 * payload + 67 else 8 * payload + 43
  }

  /** When it is due. On an Ethernet hub that is its wire time after a reading made after its stamp, so
      no earlier than its stamp plus its wire time; on a CAN bus it is its wire time after a reading made
      before its stamp. This is exact as long as none of the numbers leaves its 64 bits; a bus of rate 0
      has no wire time. */
  lemma DueAfterStamp(tr: seq<Event>, j: nat, bits: nat, wire: nat)
    requires Valid(tr) && AcceptedAt(tr, j) && PostedAt(tr, j).bus < |tr| && tr[PostedAt(tr, j).bus].Create?
    requires var made, e := tr[PostedAt(tr, j).bus], tr[j];
             && bits == Bits(made.kind, e.frame.proto, |e.frame.payload|)
             && wire == (if made.rate > 0 then bits * 1_000_000_000 / made.rate else 0)
             && (made.rate > 0 ==> bits * 1_000_000_000 < TWO64) && e.second + wire < TWO63
    ensures var made, d, e := tr[PostedAt(tr, j).bus], PostedAt(tr, j), tr[j];
            && (made.kind.Eth? ==> d.at == e.second + wire >= d.frame.tsNs + wire)
            && (made.kind.Can? ==> d.at == e.first + wire <= d.frame.tsNs + wire)
  {
    var h := AcceptedOn(tr, j);
    ReadsInOrder(tr, j);
    DueOnHub(j, h, tr[j], bits, wire);
  }

  lemma DueOnHub(id: Id, h: Hub, e: Event, bits: nat, wire: nat)
    requires e.Send? && e.first <= e.second < TWO63
    requires bits == Bits(h.kind, e.frame.proto, |e.frame.payload|)
    requires wire == if h.rate > 0 then bits * 1_000_000_000 / h.rate else 0
    requires (h.rate > 0 ==> bits * 1_000_000_000 < TWO64) && e.second + wire < TWO63
    ensures var d := Posted(id, h, e.src, e.frame, e.first, e.second);
            && (h.kind.Eth? ==> d.at == e.second + wire >= d.frame.tsNs + wire)
            && (h.kind.Can? ==> d.at == e.first + wire <= d.frame.tsNs + wire)
  {
    DueExact(if h.kind.Eth? then e.second else e.first, bits, h.rate);
  }

  /** A frame that was delivered on a bus and is sent again, whether on the same bus or on another of its
      kind, and in whatever run, is delivered as it was: with the same protocol, tag and payload. */
  lemma SentAgain(tr: seq<Event>, j: nat, tr': seq<Event>, k: nat)
    requires Valid(tr) && AcceptedAt(tr, j) && Valid(tr') && AcceptedAt(tr', k)
    requires OnEthernet(tr[..j], tr[j].name) <==> OnEthernet(tr'[..k], tr'[k].name)
    requires tr'[k].frame == PostedAt(tr, j).frame
    ensures var f, g := PostedAt(tr, j).frame, PostedAt(tr', k).frame;
            g.proto == f.proto && g.tag == f.tag && g.payload == f.payload
  {
    DeliversAsSent(tr, j);
    DeliversAsSent(tr', k);
  }
}
