/** The order in which a worker process works on the commands the mux wrote. */
module ProtocolOrder {
  import opened CmdProcessors
  import opened Protocol
  import opened Seqs

  ghost function Payload(chan: seq<Item>): seq<Cmd>
  {
    if chan == [] then [] else (if chan[0].Command? then [chan[0].cmd] else []) + Payload(chan[1..])
  }

  ghost function InHand(s: System): seq<Cmd>
  {
    if s.mode.Working? then [s.mode.cmd] else []
  }

  /** The commands that reached the worker and are not worked off, the oldest first. */
  ghost function Held(s: System): seq<Cmd>
  {
    InHand(s) + Payload(s.chan) + s.wire
  }

  /** The commands that one act puts on the wire, and those of a run. */
  ghost function SentBy(a: Act): seq<Cmd>
  {
    if a.Write? && a.delivered <= |a.cmds| then a.cmds[..a.delivered] else []
  }

  ghost function SentIn(acts: seq<Act>): seq<Cmd>
  {
    if acts == [] then [] else SentBy(acts[0]) + SentIn(acts[1..])
  }

  /** The command that one act works off, and those of a run, in the order in which they are. */
  ghost function WorkedBy(s: System, a: Act): seq<Cmd>
  {
    if a.Run? then InHand(s) else []
  }

  ghost function WorkedIn(s: System, acts: seq<Act>): seq<Cmd>
    decreases acts
  {
    if acts == [] || !Enabled(s, acts[0]) then []
    else WorkedBy(s, acts[0]) + WorkedIn(Do(s, acts[0]), acts[1..])
  }

  lemma {:induction false} PayloadSnoc(chan: seq<Item>, x: Item)
    ensures Payload(chan + [x]) == Payload(chan) + if x.Command? then [x.cmd] else []
  {
    if chan == [] {
      assert chan + [x] == [x];
      assert [x][1..] == [];
    } else {
      assert (chan + [x])[1..] == chan[1..] + [x];
      PayloadSnoc(chan[1..], x);
    }
  }

  /** Acts that lose nothing: no failed read, no command drained. */
  ghost predicate Lossless(a: Act)
  {
    !a.ReadError? && !a.DrainOne?
  }

  lemma MoveHolds(s: System)
    requires Enabled(s, Move)
    ensures Held(Do(s, Move)) == Held(s)
  {
    PayloadSnoc(s.chan, Command(s.wire[0]));
    assert s.wire == [s.wire[0]] + s.wire[1..];
    Regroup(InHand(s) + Payload(s.chan), [s.wire[0]], s.wire[1..]);
  }

  lemma WriteHolds(s: System, a: Act)
    requires Enabled(s, a) && a.Write?
    ensures Held(Do(s, a)) == Held(s) + SentBy(a)
  {
    Regroup(InHand(s) + Payload(s.chan), s.wire, SentBy(a));
  }

  lemma TakeHolds(s: System)
    requires Enabled(s, Take)
    ensures Held(Do(s, Take)) == Held(s)
  {
  }

  /** Such an act takes the oldest command, or none, and adds the newest. */
  lemma StepHolds(s: System, a: Act)
    requires Enabled(s, a) && Lossless(a)
    ensures WorkedBy(s, a) + Held(Do(s, a)) == Held(s) + SentBy(a)
  {
    match a
    case Write(_, _) => WriteHolds(s, a);
    case Move => MoveHolds(s);
    case Take => TakeHolds(s);
    case Run(_, _) => Regroup(InHand(s), Payload(s.chan), s.wire);
    case _ =>
  }

  /** Losing the front of the wire, and perhaps the command in hand. */
  lemma WireLoses(worked: seq<Cmd>, hand: seq<Cmd>, chan: seq<Cmd>, lost: seq<Cmd>, wire: seq<Cmd>, sent: seq<Cmd>)
    requires Subsequence(worked + (hand + chan + (lost + wire)), sent)
    ensures Subsequence(worked + (hand + chan + wire), sent) && Subsequence(worked + ([] + chan + wire), sent)
  {
    var front := worked + hand + chan;
    assert worked + (hand + chan + (lost + wire)) == front + lost + wire;
    SubsequenceLess(front, lost, wire, sent);
    assert worked + (hand + chan + wire) == front + wire == worked + hand + (chan + wire);
    SubsequenceLess(worked, hand, chan + wire, sent);
    assert worked + ([] + chan + wire) == worked + (chan + wire);
  }

  lemma ReadErrorLoses(s: System, a: Act, worked: seq<Cmd>, sent: seq<Cmd>)
    requires Enabled(s, a) && a.ReadError? && Subsequence(worked + Held(s), sent)
    ensures Subsequence(worked + Held(Do(s, a)), sent)
  {
    PayloadSnoc(s.chan, Broken);
    assert s.wire == s.wire[..a.dropped] + s.wire[a.dropped..];
    WireLoses(worked, InHand(s), Payload(s.chan), s.wire[..a.dropped], s.wire[a.dropped..], sent);
    assert Payload(s.chan) + [] == Payload(s.chan);
  }

  /** The others lose some commands, and bring none out of order. */
  lemma StepLoses(s: System, a: Act, worked: seq<Cmd>, sent: seq<Cmd>)
    requires Enabled(s, a) && !Lossless(a) && Subsequence(worked + Held(s), sent)
    ensures Subsequence(worked + Held(Do(s, a)), sent)
  {
    if a.ReadError? {
      ReadErrorLoses(s, a, worked, sent);
    } else {
      var first := if s.chan[0].Command? then [s.chan[0].cmd] else [];
      assert worked + Held(s) == worked + first + Held(Do(s, a));
      SubsequenceLess(worked, first, Held(Do(s, a)), sent);
    }
  }

  /** One step of a run, counting from what was worked off and sent before. */
  lemma StepInOrder(s: System, a: Act, worked: seq<Cmd>, sent: seq<Cmd>)
    requires Enabled(s, a) && Subsequence(worked + Held(s), sent)
    ensures Subsequence(worked + WorkedBy(s, a) + Held(Do(s, a)), sent + SentBy(a))
  {
    if Lossless(a) {
      StepHolds(s, a);
      Regroup(worked, WorkedBy(s, a), Held(Do(s, a)));
      Regroup(worked, Held(s), SentBy(a));
      SubsequenceMore(worked + Held(s), sent, SentBy(a));
    } else {
      StepLoses(s, a, worked, sent);
      assert worked + WorkedBy(s, a) == worked && sent + SentBy(a) == sent;
    }
  }

  lemma {:induction false} RunInOrder(s: System, acts: seq<Act>, t: System, worked: seq<Cmd>, sent: seq<Cmd>)
    requires Reaches(s, acts, t) && Subsequence(worked + Held(s), sent)
    ensures Subsequence(worked + WorkedIn(s, acts) + Held(t), sent + SentIn(acts))
    decreases acts
  {
    if acts == [] {
      assert worked + [] == worked && sent + [] == sent;
    } else {
      var a, rest := acts[0], acts[1..];
      StepInOrder(s, a, worked, sent);
      RunInOrder(Do(s, a), rest, t, worked + WorkedBy(s, a), sent + SentBy(a));
      Regroup(worked, WorkedBy(s, a), WorkedIn(Do(s, a), rest));
      Regroup(sent, SentBy(a), SentIn(rest));
    }
  }

  lemma {:induction false} RunLosesNothing(s: System, acts: seq<Act>, t: System)
    requires Reaches(s, acts, t) && forall i :: 0 <= i < |acts| ==> Lossless(acts[i])
    ensures WorkedIn(s, acts) + Held(t) == Held(s) + SentIn(acts)
    decreases acts
  {
    if acts != [] {
      var a, next := acts[0], Do(s, acts[0]);
      StepHolds(s, a);
      RunLosesNothing(next, acts[1..], t);
      Regroup(WorkedBy(s, a), WorkedIn(next, acts[1..]), Held(t));
      Regroup(WorkedBy(s, a), Held(next), SentIn(acts[1..]));
      Regroup(Held(s), SentBy(a), SentIn(acts[1..]));
    }
  }

  lemma RunFromEmpty(s: System, acts: seq<Act>, t: System)
    requires Reaches(s, acts, t) && Held(s) == []
    ensures Subsequence(WorkedIn(s, acts) + Held(t), SentIn(acts))
  {
    assert [] + Held(s) == [];
    RunInOrder(s, acts, t, [], []);
    assert [] + WorkedIn(s, acts) == WorkedIn(s, acts) && [] + SentIn(acts) == SentIn(acts);
  }

  lemma AllFromEmpty(s: System, acts: seq<Act>, t: System)
    requires Reaches(s, acts, t) && Held(s) == [] && forall i :: 0 <= i < |acts| ==> Lossless(acts[i])
    ensures WorkedIn(s, acts) + Held(t) == SentIn(acts)
  {
    RunLosesNothing(s, acts, t);
    assert [] + SentIn(acts) == SentIn(acts);
  }

  /** In every run the worker works the commands off in the order in which the mux wrote them, none twice. */
  lemma CommandsInOrder(acts: seq<Act>, t: System)
    requires Reaches(START, acts, t)
    ensures Subsequence(WorkedIn(START, acts) + Held(t), SentIn(acts))
  {
    assert Held(START) == [];
    RunFromEmpty(START, acts, t);
  }

  /** Unless a read fails or a recovery drains the channel, it leaves none out: those worked off and those held are all. */
  lemma NoneLeftOut(acts: seq<Act>, t: System)
    requires Reaches(START, acts, t) && forall i :: 0 <= i < |acts| ==> Lossless(acts[i])
    ensures WorkedIn(START, acts) + Held(t) == SentIn(acts)
  {
    assert Held(START) == [];
    AllFromEmpty(START, acts, t);
  }
}
