// From a bus to a file and back: the two ends of a recorded run, seen together.
module EndToEnd {
  import opened Bytes
  import opened Capture
  import opened Engine
  import opened FiringOrder
  import opened Recording
  import opened Replay
  import opened SendOrder
  import opened Sends
  import opened Taps

  lemma RisingIsSorted(frames: seq<Frame>)
    requires Rising(frames)
    ensures Sorted(frames)
  {}

  /** Non-shrinking traffic replays as it was sent: the frames of the file are those of the fired sends of
      the window, with the tags and payloads given to them, and come out in the order of the sends; of any
      two, the later is due no earlier if and only if the sums of the start and their offsets both leave
      64 bits or neither does, and in exact mode they are then, and only then, due as far apart as they
      were sent, counting from a clock that had left zero. */
  lemma ReplaysAsSent(tr: seq<Event>, b: string, r: nat, i: nat, j: nat, start: U64, k: Scale)
    requires Valid(tr) && Attached(tr, Record, b, r) && WindowNotShrinking(tr, r)
    ensures r in Run(tr).files && OpensAsCapture(Run(tr).files[r])
    ensures Contents(Run(tr).files[r]) == AllKept(SentInWindow(tr, r, Deliveries(SchedAt(tr).fired)))
    ensures var frames := Contents(Run(tr).files[r]);
            i < j < |frames| ==> Sorted(frames) && frames[i].tsNs < frames[j].tsNs
    ensures var frames := Contents(Run(tr).files[r]);
            i < j < |frames| && InRange(Span(frames), k) ==>
              && NotBeforeOrigin(frames, i) && NotBeforeOrigin(frames, j)
              && (var elapsed := FireTime(frames, j, start, k) - FireTime(frames, i, start, k);
                  var same := SameLap(start, Offset(frames, i), Offset(frames, j), k);
                  && (elapsed >= 0 <==> same)
                  && (k == EXACT ==> (elapsed == frames[j].tsNs - frames[i].tsNs <==> same && frames[i].tsNs > 0)))
  {
    RecordingWindow(tr, b, r);
    CaptureIsSorted(tr, b, r);
    var frames := Contents(Run(tr).files[r]);
    RisingIsSorted(frames);
    if i < j < |frames| {
      if InRange(Span(frames), k) {
        SortedReplay(frames, i, j, start, k);
      }
      SpacingExactly(frames, i, j, start);
    }
  }

  /** From one bus to another: whenever a frame of a recording is sent again, in whatever run, on a bus of
      the kind that it was recorded on, it is delivered with the tag, the protocol number and, up to its
      length modulo 2^32, the payload of one of the sends that were recorded. */
  lemma ReplayRedelivers(tr: seq<Event>, b: string, r: nat, i: nat, tr': seq<Event>, k: nat)
    returns (x: nat, j: nat)
    requires Valid(tr) && Attached(tr, Record, b, r) && r in Run(tr).files && OpensAsCapture(Run(tr).files[r])
    requires i < |Contents(Run(tr).files[r])| && Valid(tr') && AcceptedAt(tr', k)
    requires tr'[k].frame == Contents(Run(tr).files[r])[i]
    ensures x < |SchedAt(tr).fired| && SchedAt(tr).fired[x].d.id == j && InWindow(tr, r, j) && AcceptedAt(tr, j)
    ensures OnEthernet(tr'[..k], tr'[k].name) == OnEthernet(tr[..j], tr[j].name) ==>
              var sent, f, g := tr[j].frame, PostedAt(tr, j).frame, PostedAt(tr', k).frame;
              g.tag == sent.tag && g.proto == f.proto && g.payload == sent.payload[..|sent.payload| % TWO32]
  {
    RecordingWindow(tr, b, r);
    x := WindowMembers(tr, r, Deliveries(SchedAt(tr).fired), i);
    j := SchedAt(tr).fired[x].d.id;
    CallbackIsTap(tr[..j], Record, tr[j].name, r);
    PostedAsSent(tr, j);
    PostedAsSent(tr', k);
  }
}
