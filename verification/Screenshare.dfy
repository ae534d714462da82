/** `ScreenshareRelay`: who is sharing, who has focus, and which frames are written, over the events of one meeting. */
module Screenshare {
  import opened Prelude

  const MIN_WRITE_INTERVAL := 1.0

  datatype Event =
    | On(participant: string)
    | Off(participant: string)
    | Frame(participant: string, at: real)
    | WriteDone

  /** A write that was started: whose frame, when, and by which event. */
  datatype Write = Write(participant: string, at: real, event: nat)

  datatype State = State(sharing: seq<string>, lastWriteAt: real, writeInFlight: bool, writes: seq<Write>)

  function Joined(sharing: seq<string>, participant: string): seq<string> {
    if participant != "" && participant !in sharing then sharing + [participant] else sharing
  }

  /** `list.remove`: the first occurrence. */
  function Removed(sharing: seq<string>, participant: string): seq<string> {
    if sharing == [] then []
    else if sharing[0] == participant then sharing[1..]
    else [sharing[0]] + Removed(sharing[1..], participant)
  }

  predicate IsFocused(sharing: seq<string>, participant: string) {
    sharing != [] && sharing[|sharing| - 1] == participant
  }

  predicate IsDue(state: State, at: real) {
    !state.writeInFlight && at - state.lastWriteAt >= MIN_WRITE_INTERVAL
  }

  /** What one event makes of the relay; `count` events came before it. */
  function Next(state: State, event: Event, count: nat): State {
    match event
    case On(participant) => state.(sharing := Joined(state.sharing, participant))
    case Off(participant) => state.(sharing := Removed(state.sharing, participant))
    case WriteDone => state.(writeInFlight := false)
    case Frame(participant, at) =>
      var sharing := Joined(state.sharing, participant);
      if participant != "" && IsFocused(sharing, participant) && IsDue(state, at) then
        State(sharing, at, true, state.writes + [Write(participant, at, count)])
      else
        state.(sharing := sharing)
  }

  function Run(events: seq<Event>): State {
    if events == [] then State([], 0.0, false, [])
        else Next(Run(events[..|events| - 1]), events[|events| - 1], |events| - 1)
  }

  class ScreenshareRelay {
    var sharing: seq<string>
    var lastWriteAt: real
    var writeInFlight: bool
    /** Everything that happened, and every write started. */
    ghost var events: seq<Event>
    ghost var writes: seq<Write>

    ghost predicate Valid() reads this {
      State(sharing, lastWriteAt, writeInFlight, writes) == Run(events)
    }

    constructor ()
      ensures Valid() && events == []
    {
      sharing, lastWriteAt, writeInFlight := [], 0.0, false;
      events, writes := [], [];
    }

    ghost method Happened(event: Event)
      modifies this`events
      ensures events == old(events) + [event] && Run(events) == Next(Run(old(events)), event, |old(events)|)
    {
      events := events + [event];
      assert events[..|events| - 1] == old(events);
    }

    method ScreenshareOn(participant: string)
      requires Valid()
      modifies this
      ensures Valid() && events == old(events) + [On(participant)]
    {
      Happened(On(participant));
      if participant != "" && participant !in sharing {
        sharing := sharing + [participant];
      }
    }

    method ScreenshareOff(participant: string)
      requires Valid()
      modifies this
      ensures Valid() && events == old(events) + [Off(participant)]
    {
      Happened(Off(participant));
      NothingToRemove(sharing, participant);
      if participant in sharing {
        sharing := Removed(sharing, participant);
      }
    }

    /**
     * Stores the frame exactly if it is the focused sharer's, no write is in flight, and the last start is
     * long enough ago.
     */
    method HandleFrame(participant: string, now: real) returns (stored: bool)
      requires Valid()
      modifies this
      ensures Valid() && events == old(events) + [Frame(participant, now)]
      ensures writes == old(writes) + if stored then [Write(participant, now, |old(events)|)] else []
      ensures stored <==>
                && participant != "" && sharing != [] && sharing[|sharing| - 1] == participant
                && !old(writeInFlight) && now >= old(lastWriteAt) + 1.0
    {
      Happened(Frame(participant, now));
      if participant == "" {
        return false;
      }
      if participant !in sharing {
        sharing := sharing + [participant];
      }
      if sharing[|sharing| - 1] != participant {
        return false;
      }
      if writeInFlight || now - lastWriteAt < MIN_WRITE_INTERVAL {
        return false;
      }
      lastWriteAt := now;
      writes := writes + [Write(participant, now, |events| - 1)];
      writeInFlight := true;
      return true;
    }

    /** The stored frame's upload ended, well or not. */
    method FinishWrite()
      requires Valid() && writeInFlight
      modifies this
      ensures Valid() && events == old(events) + [WriteDone]
    {
      Happened(WriteDone);
      writeInFlight := false;
    }
  }

  lemma {:induction false} NothingToRemove(sharing: seq<string>, participant: string)
    ensures participant !in sharing ==> Removed(sharing, participant) == sharing
  {
    if sharing != [] && sharing[0] != participant {
      NothingToRemove(sharing[1..], participant);
    }
  }

  // ---- the sharers, from the events alone ----

  predicate Starts(event: Event, participant: string) {
    (event.On? || event.Frame?) && event.participant == participant && participant != ""
  }

  predicate Ends(event: Event, participant: string) {
    event.Off? && event.participant == participant
  }

  /** Event `i` is the one from which the participant has been sharing without a break until now. */
  ghost predicate SharesFrom(events: seq<Event>, participant: string, i: nat) {
    && i < |events| && Starts(events[i], participant)
    && (forall j :: i < j < |events| ==> !Ends(events[j], participant))
    && forall j :: 0 <= j < i && Starts(events[j], participant) ==>
        exists k :: j < k < i && Ends(events[k], participant)
  }

  /** The last event that starts the participant's share is after the last one that ends it. */
  ghost predicate IsSharing(events: seq<Event>, participant: string) {
    exists i :: 0 <= i < |events| && Starts(events[i], participant) && forall j :: i < j < |events| ==>
        !Ends(events[j], participant)
  }

  /** `starts` are the events from which each sharer shares, in ascending order. */
  ghost predicate OrderedByStart(events: seq<Event>, sharing: seq<string>, starts: seq<nat>) {
    && |starts| == |sharing|
    && (forall i :: 0 <= i < |sharing| ==> SharesFrom(events, sharing[i], starts[i]))
    && forall i, j :: 0 <= i < j < |starts| ==> starts[i] < starts[j]
  }

  lemma StillShares(events: seq<Event>, event: Event, participant: string, i: nat)
    requires SharesFrom(events, participant, i) && !Ends(event, participant)
    ensures SharesFrom(events + [event], participant, i)
  {
    var longer := events + [event];
    forall j | 0 <= j < i && Starts(longer[j], participant)
      ensures exists k :: j < k < i && Ends(longer[k], participant) {
      assert Starts(events[j], participant);
      var k :| j < k < i && Ends(events[k], participant);
      assert Ends(longer[k], participant);
    }
  }

  lemma SharesFromNow(events: seq<Event>, event: Event, participant: string)
    requires Starts(event, participant) && !IsSharing(events, participant)
    ensures SharesFrom(events + [event], participant, |events|)
  {
    var longer := events + [event];
    forall j | 0 <= j < |events| && Starts(longer[j], participant)
      ensures exists k :: j < k < |events| && Ends(longer[k], participant) {
      assert Starts(events[j], participant);
      var k :| j < k < |events| && Ends(events[k], participant);
      assert Ends(longer[k], participant);
    }
  }

  lemma SharingNext(events: seq<Event>, event: Event, participant: string)
    ensures IsSharing(events + [event], participant) <==>
            Starts(event, participant) || (IsSharing(events, participant) && !Ends(event, participant))
  {
    var longer := events + [event];
    if Starts(event, participant) {
      assert Starts(longer[|events|], participant);
    }
    if IsSharing(events, participant) && !Ends(event, participant) {
      var i :| 0 <= i < |events| && Starts(events[i], participant) && forall j :: i < j < |events| ==>
          !Ends(events[j], participant);
      assert Starts(longer[i], participant);
    }
    if IsSharing(longer, participant) && !Starts(event, participant) {
      var i :| 0 <= i < |longer| && Starts(longer[i], participant) && forall j :: i < j < |longer| ==>
          !Ends(longer[j], participant);
      assert Starts(events[i], participant);
      assert forall j :: i < j < |events| ==> events[j] == longer[j];
      assert longer[|events|] == event;
    }
  }

  function RemoveAt<T>(s: seq<T>, at: nat): seq<T>
    requires at < |s|
  {
    s[..at] + s[at + 1..]
  }

  lemma {:induction false} RemovedAt(sharing: seq<string>, at: nat)
    requires at < |sharing| && Distinct(sharing)
    ensures Removed(sharing, sharing[at]) == RemoveAt(sharing, at)
  {
    if at > 0 {
      assert Distinct(sharing[1..]) && sharing[at] == sharing[1..][at - 1];
      RemovedAt(sharing[1..], at - 1);
    }
  }

  /**
   * After any events the list has no repetition, holds exactly those whose last on-or-frame follows their
   * last off, and is in order of the start of the current share.
   */
  lemma {:induction false} SharersAreOrderedByStart(events: seq<Event>) returns (starts: seq<nat>)
    ensures Distinct(Run(events).sharing) && OrderedByStart(events, Run(events).sharing, starts)
    ensures forall participant :: participant in Run(events).sharing <==> IsSharing(events, participant)
  {
    if events == [] {
      return [];
    }
    var before, event := events[..|events| - 1], events[|events| - 1];
    assert events == before + [event];
    var earlier := SharersAreOrderedByStart(before);
    var sharing := Run(before).sharing;
    if event.WriteDone? {
      starts := earlier;
    } else if event.Off? {
      starts := AfterOff(before, sharing, earlier, event);
    } else {
      starts := AfterStart(before, sharing, earlier, event);
    }
    forall participant ensures participant in Run(events).sharing <==> IsSharing(events, participant) {
      SharingNext(before, event, participant);
    }
    Kept(before, sharing, earlier, event);
  }

  lemma Kept(events: seq<Event>, sharing: seq<string>, starts: seq<nat>, event: Event)
    requires OrderedByStart(events, sharing, starts)
    ensures event.WriteDone? ==> OrderedByStart(events + [event], sharing, starts)
  {
    if event.WriteDone? {
      forall i | 0 <= i < |sharing| ensures SharesFrom(events + [event], sharing[i], starts[i]) {
        StillShares(events, event, sharing[i], starts[i]);
      }
    }
  }

  lemma RemovalKeepsOrder(events: seq<Event>, sharing: seq<string>, starts: seq<nat>, at: nat)
    requires Distinct(sharing) && OrderedByStart(events, sharing, starts) && at < |sharing|
    ensures OrderedByStart(events, RemoveAt(sharing, at), RemoveAt(starts, at))
  {
  }

  lemma RemovalDropsOne(sharing: seq<string>, at: nat, participant: string)
    requires Distinct(sharing) && at < |sharing|
    ensures Distinct(RemoveAt(sharing, at))
    ensures participant in RemoveAt(sharing, at) <==> participant in sharing && participant != sharing[at]
  {
  }

  lemma AfterOff(events: seq<Event>, sharing: seq<string>, starts: seq<nat>, event: Event) returns (next: seq<nat>)
    requires Distinct(sharing) && OrderedByStart(events, sharing, starts) && event.Off?
    ensures Distinct(Removed(sharing, event.participant))
    ensures OrderedByStart(events + [event], Removed(sharing, event.participant), next)
    ensures forall p :: p in Removed(sharing, event.participant) <==> p in sharing && p != event.participant
  {
    var rest := sharing;
    next := starts;
    if at :| 0 <= at < |sharing| && sharing[at] == event.participant {
      RemovedAt(sharing, at);
      RemovalKeepsOrder(events, sharing, starts, at);
      rest, next := RemoveAt(sharing, at), RemoveAt(starts, at);
      forall p ensures p in rest <==> p in sharing && p != event.participant {
        RemovalDropsOne(sharing, at, p);
      }
    } else {
      NothingToRemove(sharing, event.participant);
    }
    forall i | 0 <= i < |rest| ensures SharesFrom(events + [event], rest[i], next[i]) {
      assert rest[i] in rest;
      StillShares(events, event, rest[i], next[i]);
    }
  }

  lemma AfterStart(events: seq<Event>, sharing: seq<string>, starts: seq<nat>, event: Event) returns (next: seq<nat>)
    requires Distinct(sharing) && OrderedByStart(events, sharing, starts) && (event.On? || event.Frame?)
    requires forall p :: p in sharing <==> IsSharing(events, p)
    ensures Distinct(Joined(sharing, event.participant))
    ensures OrderedByStart(events + [event], Joined(sharing, event.participant), next)
  {
    next := starts;
    forall i | 0 <= i < |sharing| ensures SharesFrom(events + [event], sharing[i], starts[i]) && starts[i] < |events| {
      StillShares(events, event, sharing[i], starts[i]);
    }
    if event.participant != "" && event.participant !in sharing {
      SharesFromNow(events, event, event.participant);
      next := starts + [|events|];
    }
  }

  // ---- the writes ----

  /** A started write is a frame of whoever was focused when it arrived. */
  ghost predicate IsFocusedFrame(events: seq<Event>, write: Write) {
    && write.event < |events|
    && events[write.event] == Frame(write.participant, write.at)
    && IsFocused(Run(events[..write.event + 1]).sharing, write.participant)
  }

  /** The second write starts at least the interval after the first, and only once that one is done. */
  ghost predicate Apart(events: seq<Event>, first: Write, second: Write) {
    second.at >= first.at + MIN_WRITE_INTERVAL && DoneBetween(events, first.event, second.event)
  }

  ghost predicate WritesAreFocused(events: seq<Event>, writes: seq<Write>) {
    forall i :: 0 <= i < |writes| ==> IsFocusedFrame(events, writes[i])
  }

  ghost predicate WritesAreSpaced(events: seq<Event>, writes: seq<Write>) {
    forall i, j :: 0 <= i < j < |writes| ==> Apart(events, writes[i], writes[j])
  }

  ghost predicate DoneBetween(events: seq<Event>, from: nat, to: nat) {
    exists k :: from < k < to && k < |events| && events[k].WriteDone?
  }

  /** The flag and the time describe the last write. */
  ghost predicate LastWrite(events: seq<Event>, state: State) {
    state.writes != [] ==>
      var last := state.writes[|state.writes| - 1];
      state.lastWriteAt == last.at && last.event < |events|
          && (!state.writeInFlight ==> DoneBetween(events, last.event, |events|))
  }

  /** Stored frames come only from the focused sharer, with one write in flight and starts spaced out. */
  lemma {:induction false} WritesAreFocusedAndSpaced(events: seq<Event>)
    ensures WritesAreFocused(events, Run(events).writes) && WritesAreSpaced(events, Run(events).writes)
  {
    if events != [] {
      var before, event := events[..|events| - 1], events[|events| - 1];
      WritesAreFocusedAndSpaced(before);
      LastWriteIsKnown(before);
      assert events == before + [event];
      EarlierWritesStand(before, event, Run(before).writes);
      if Run(events).writes != Run(before).writes {
        OneMoreWrite(before, event, Run(before));
      }
    }
  }

  lemma {:induction false} LastWriteIsKnown(events: seq<Event>)
    ensures LastWrite(events, Run(events))
    ensures Run(events).writes == [] ==> !Run(events).writeInFlight
  {
    if events != [] {
      var before, event := events[..|events| - 1], events[|events| - 1];
      LastWriteIsKnown(before);
      var was := Run(before);
      assert events == before + [event];
      if was.writes != [] {
        var last := was.writes[|was.writes| - 1];
        if event.WriteDone? {
          assert events[|before|].WriteDone?;
          assert DoneBetween(events, last.event, |events|);
        } else if !was.writeInFlight {
          LaterDone(before, event, last.event, |before|);
        }
      }
    }
  }

  lemma LaterDone(events: seq<Event>, event: Event, from: nat, to: nat)
    requires DoneBetween(events, from, to)
    ensures DoneBetween(events + [event], from, to) && DoneBetween(events + [event], from, to + 1)
  {
    var k :| from < k < to && k < |events| && events[k].WriteDone?;
    assert (events + [event])[k].WriteDone?;
  }

  lemma EarlierWritesStand(events: seq<Event>, event: Event, writes: seq<Write>)
    requires WritesAreFocused(events, writes) && WritesAreSpaced(events, writes)
    ensures WritesAreFocused(events + [event], writes) && WritesAreSpaced(events + [event], writes)
  {
    var longer := events + [event];
    forall i | 0 <= i < |writes| ensures IsFocusedFrame(longer, writes[i]) {
      assert IsFocusedFrame(events, writes[i]);
      assert longer[..writes[i].event + 1] == events[..writes[i].event + 1];
    }
    forall i, j | 0 <= i < j < |writes| ensures Apart(longer, writes[i], writes[j]) {
      assert Apart(events, writes[i], writes[j]);
      LaterDone(events, event, writes[i].event, writes[j].event);
    }
  }

  /** When an event starts a write. */
  lemma WriteStarted(was: State, event: Event, count: nat)
    requires Next(was, event, count).writes != was.writes
    ensures event.Frame? && !was.writeInFlight && event.at >= was.lastWriteAt + MIN_WRITE_INTERVAL
    ensures Next(was, event, count).writes == was.writes + [Write(event.participant, event.at, count)]
    ensures IsFocused(Next(was, event, count).sharing, event.participant)
  {
  }

  lemma OneMoreWrite(events: seq<Event>, event: Event, was: State)
    requires was == Run(events) && Next(was, event, |events|).writes != was.writes
    requires WritesAreFocused(events + [event], was.writes) && WritesAreSpaced(events + [event], was.writes)
    requires LastWrite(events, was)
    ensures WritesAreFocused(events + [event], Next(was, event, |events|).writes)
    ensures WritesAreSpaced(events + [event], Next(was, event, |events|).writes)
  {
    WriteStarted(was, event, |events|);
    var longer, write := events + [event], Write(event.participant, event.at, |events|);
    NewWriteIsFocused(events, event, was, write);
    forall i | 0 <= i < |was.writes| ensures Apart(longer, was.writes[i], write) {
      NewWriteIsApart(events, event, was, write, i);
    }
    WritesGrow(longer, was.writes, write);
  }

  lemma WritesGrow(events: seq<Event>, writes: seq<Write>, write: Write)
    requires WritesAreFocused(events, writes) && WritesAreSpaced(events, writes)
    requires IsFocusedFrame(events, write) && forall i :: 0 <= i < |writes| ==> Apart(events, writes[i], write)
    ensures WritesAreFocused(events, writes + [write]) && WritesAreSpaced(events, writes + [write])
  {
  }

  lemma NewWriteIsFocused(events: seq<Event>, event: Event, was: State, write: Write)
    requires was == Run(events) && Next(was, event, |events|).writes != was.writes
    requires write == Write(event.participant, event.at, |events|)
    ensures IsFocusedFrame(events + [event], write)
  {
    var longer := events + [event];
    assert longer[..|events|] == events && longer[..|events| + 1] == longer;
    assert Run(longer) == Next(was, event, |events|);
  }

  lemma NewWriteIsApart(events: seq<Event>, event: Event, was: State, write: Write, i: nat)
    requires i < |was.writes| && WritesAreSpaced(events + [event], was.writes) && LastWrite(events, was)
    requires !was.writeInFlight
    requires write.event == |events| && write.at >= was.lastWriteAt + MIN_WRITE_INTERVAL
    ensures Apart(events + [event], was.writes[i], write)
  {
    var last := was.writes[|was.writes| - 1];
    LaterDone(events, event, last.event, |events|);
    if i < |was.writes| - 1 {
      assert Apart(events + [event], was.writes[i], last);
      DoneEarlier(events + [event], was.writes[i].event, last.event, |events|);
    }
  }

  lemma DoneEarlier(events: seq<Event>, from: nat, middle: nat, to: nat)
    requires DoneBetween(events, from, middle) && middle <= to
    ensures DoneBetween(events, from, to)
  {
  }
}
