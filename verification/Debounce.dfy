/** The debounce gate of dump triggers and the dispatch of dump runs (dial9-core/src/dump.rs). */
module Debounce {
  import opened Wrappers

  /** The last accepted request: when its clock was read and its dump ID. */
  datatype Reservation = Reservation(at: nat, id: nat)

  /** Time since an earlier instant, zero if it is not earlier. */
  function Since(now: nat, at: nat): nat {
    if now >= at then now - at else 0
  }

  /** Whether a request whose clock read `now` folds into the reservation. */
  predicate Folds(last: Option<Reservation>, window: nat, now: nat) {
    last.Some? && Since(now, last.value.at) < window
  }

  function AfterRequest(last: Option<Reservation>, window: nat, now: nat, id: nat): Option<Reservation> {
    if Folds(last, window, now) then last else Some(Reservation(now, id))
  }

  function AfterRelease(last: Option<Reservation>, id: nat): Option<Reservation> {
    if last.Some? && last.value.id == id then None else last
  }

  // ----- The gate and the run -----

  class Gate {
    const window: nat
    var last: Option<Reservation>

    constructor (window: nat)
      ensures this.window == window && last == None
    {
      this.window := window;
      last := None;
    }

    /** What a request does while it holds the gate's lock; `into` is the dump it folded into. */
    method Request(now: nat, id: nat) returns (into: Option<nat>)
      modifies this
      ensures last == AfterRequest(old(last), window, now, id)
      ensures into == if Folds(old(last), window, now) then Some(old(last).value.id) else None
    {
      if last.Some? && Since(now, last.value.at) < window {
        return Some(last.value.id);
      }
      last := Some(Reservation(now, id));
      into := None;
    }

    method Release(id: nat)
      modifies this
      ensures last == AfterRelease(old(last), id)
    {
      if last.Some? && last.value.id == id {
        last := None;
      }
    }
  }

  /** The sending half of the trigger channel. */
  class Channel {
    var open: bool
    var received: seq<nat>

    constructor ()
      ensures open && received == []
    {
      open, received := true, [];
    }
  }

  /** A dump run: it sends its request once, when it is awaited or dropped, whichever comes first. */
  class DumpRun {
    var request: Option<nat>

    constructor (request: Option<nat>)
      ensures this.request == request
    {
      this.request := request;
    }

    method Dispatch(tx: Channel) returns (sent: bool)
      modifies this, tx`received
      ensures request == None
      ensures tx.received == old(tx.received) + (if old(request).Some? && tx.open then [old(request).value] else [])
      ensures sent <==> old(request).None? || tx.open
    {
      if request.Some? {
        if tx.open {
          tx.received := tx.received + [request.value];
        }
        sent := tx.open;
        request := None;
      } else {
        sent := true;
      }
    }

    /** Awaiting the run and then dropping it sends the request once. */
    method AwaitThenDrop(tx: Channel)
      modifies this, tx`received
      ensures tx.received == old(tx.received) + (if old(request).Some? && tx.open then [old(request).value] else [])
    {
      var awaited := Dispatch(tx);
      var dropped := Dispatch(tx);
    }
  }

  // ----- Interleavings -----

  /** Where a trigger is: the clock is read before the gate's lock is taken; a closed channel refuses the request. */
  datatype Phase = Clocked(at: nat) | Holding | Folded | Spent | Refused

  /** What became of requests, in the order in which they held the lock. */
  datatype Event = Accepted(id: nat, at: nat) | Coalesced(id: nat, into: nat) | Released(id: nat)

  datatype Sys = Sys(
    window: nat,
    clock: nat,
    last: Option<Reservation>,
    runs: map<nat, Phase>,
    open: bool,
    sent: seq<nat>,
    log: seq<Event>)

  datatype Action = Tick(elapsed: nat) | Start(id: nat) | Decide(id: nat) | Dispatch(id: nat) | Reject(id: nat) | Close

  predicate Enabled(s: Sys, a: Action) {
    match a
    case Tick(_) => true
    case Start(id) => id !in s.runs
    case Decide(id) => id in s.runs && s.runs[id].Clocked?
    case Dispatch(id) => id in s.runs && !s.runs[id].Clocked?
    case Reject(id) => id in s.sent
    case Close => true
  }

  function Next(s: Sys, a: Action): Sys
    requires Enabled(s, a)
  {
    match a
    case Tick(elapsed) => s.(clock := s.clock + elapsed)
    case Start(id) => s.(runs := s.runs[id := Clocked(s.clock)])
    case Decide(id) =>
      var now := s.runs[id].at;
      if Folds(s.last, s.window, now)
      then s.(runs := s.runs[id := Folded], log := s.log + [Coalesced(id, s.last.value.id)])
      else s.(last := AfterRequest(s.last, s.window, now, id), runs := s.runs[id := Holding], log := s.log + [Accepted(id, now)])
    case Dispatch(id) =>
      if !s.runs[id].Holding? then s
      else if s.open then s.(runs := s.runs[id := Spent], sent := s.sent + [id])
      else s.(runs := s.runs[id := Refused])
    case Reject(id) => s.(last := AfterRelease(s.last, id), log := s.log + [Released(id)])
    case Close => s.(open := false)
  }

  ghost predicate Run(states: seq<Sys>, actions: seq<Action>, window: nat) {
    && |states| == |actions| + 1
    && states[0] == Sys(window, 0, None, map[], true, [], [])
    && forall i {:trigger actions[i]} :: 0 <= i < |actions| ==> Enabled(states[i], actions[i]) && states[i + 1] == Next(states[i], actions[i])
  }

  // ----- What every run keeps -----

  /** The acceptance at `k` still stands: nothing was accepted after it and it was not released. */
  ghost predicate Stands(log: seq<Event>, k: int) {
    && 0 <= k < |log| && log[k].Accepted?
    && forall j :: k < j < |log| ==> !log[j].Accepted? && log[j] != Released(log[k].id)
  }

  /** The gate's reservation is the acceptance that still stands, if any. */
  ghost predicate ReservationOk(s: Sys) {
    && (s.last.Some? ==> exists k :: Stands(s.log, k) && s.log[k] == Accepted(s.last.value.id, s.last.value.at))
    && (s.last.None? ==> forall k :: !Stands(s.log, k))
  }

  /** Acceptances with no release in between are at least a window apart. */
  ghost predicate Spaced(window: nat, log: seq<Event>) {
    forall i, j :: 0 <= i < j < |log| && log[j].Accepted? && Stands(log[..j], i) ==>
      log[j].at >= log[i].at + window
  }

  /** A coalesced request names the acceptance that stood at that moment. */
  ghost predicate NamesLatest(log: seq<Event>) {
    forall j :: 0 <= j < |log| && log[j].Coalesced? ==>
      exists i :: Stands(log[..j], i) && log[i].id == log[j].into
  }

  /** A run past the gate's acceptance. */
  predicate Past(p: Phase) {
    p == Holding || p == Spent || p == Refused
  }

  /** The accepted runs dispatched to an open channel are the sent ones, each once; coalesced runs never are. */
  ghost predicate SentOk(s: Sys) {
    && (forall id :: id in s.sent <==> id in s.runs && s.runs[id] == Spent)
    && (forall i, j :: 0 <= i < j < |s.sent| ==> s.sent[i] != s.sent[j])
    && (forall i :: 0 <= i < |s.log| && s.log[i].Accepted? ==>
          s.log[i].id in s.runs && Past(s.runs[s.log[i].id]))
    && (forall id :: id in s.runs && s.runs[id] == Refused ==> !s.open)
    && (forall i :: 0 <= i < |s.log| && s.log[i].Coalesced? ==> s.log[i].id in s.runs && s.runs[s.log[i].id] == Folded)
    && (forall id :: id in s.runs && Past(s.runs[id]) ==>
          exists i :: 0 <= i < |s.log| && s.log[i].Accepted? && s.log[i].id == id)
  }

  ghost predicate Inv(s: Sys) {
    ReservationOk(s) && Spaced(s.window, s.log) && NamesLatest(s.log) && SentOk(s)
  }

  lemma StandsAppend(log: seq<Event>, e: Event, k: int)
    ensures 0 <= k < |log| ==>
      (Stands(log + [e], k) <==> Stands(log, k) && !e.Accepted? && e != Released(log[k].id))
    ensures Stands(log + [e], |log|) <==> e.Accepted?
  {
    if 0 <= k < |log| {
      assert (log + [e])[|log|] == e;
      assert forall j :: 0 <= j < |log| ==> (log + [e])[j] == log[j];
    }
  }

  /** Only one acceptance stands at a time. */
  lemma StandsOnce(log: seq<Event>, i: int, k: int)
    requires Stands(log, i) && Stands(log, k)
    ensures i == k
  {
  }

  /** History up to an earlier point is the same in the grown log. */
  lemma HistoryAppend(window: nat, log: seq<Event>, e: Event)
    requires Spaced(window, log) && NamesLatest(log)
    requires e.Accepted? ==> forall i :: Stands(log, i) ==> e.at >= log[i].at + window
    requires e.Coalesced? ==> exists i :: Stands(log, i) && log[i].id == e.into
    ensures Spaced(window, log + [e]) && NamesLatest(log + [e])
  {
    var grown := log + [e];
    assert grown[..|log|] == log;
    assert forall j :: 0 <= j < |log| ==> grown[..j] == log[..j];
  }

  /** The acceptance behind the gate's reservation is the only one that stands. */
  lemma Reserved(s: Sys) returns (k: int)
    requires ReservationOk(s) && s.last.Some?
    ensures Stands(s.log, k) && s.log[k] == Accepted(s.last.value.id, s.last.value.at)
    ensures forall i :: Stands(s.log, i) ==> i == k
  {
    k :| Stands(s.log, k) && s.log[k] == Accepted(s.last.value.id, s.last.value.at);
    forall i | Stands(s.log, i)
      ensures i == k
    {
      StandsOnce(s.log, i, k);
    }
  }

  /** What an event does to the gate's reservation. */
  function AfterEvent(last: Option<Reservation>, e: Event): Option<Reservation> {
    match e
    case Accepted(id, at) => Some(Reservation(at, id))
    case Coalesced(_, _) => last
    case Released(id) => AfterRelease(last, id)
  }

  lemma ReservationStep(s: Sys, s': Sys, e: Event)
    requires ReservationOk(s) && s'.log == s.log + [e] && s'.last == AfterEvent(s.last, e)
    ensures ReservationOk(s')
  {
    StandsAppend(s.log, e, |s.log|);
    if !e.Accepted? {
      var k := -1;
      if s.last.Some? {
        k := Reserved(s);
      }
      forall i | Stands(s'.log, i)
        ensures i == k && s.last.Some? && e != Released(s.last.value.id)
      {
        StandsAppend(s.log, e, i);
      }
      StandsAppend(s.log, e, k);
    }
  }

  lemma DecideKeeps(s: Sys, id: nat)
    requires Inv(s) && Enabled(s, Decide(id)) && s.window > 0
    ensures Inv(Next(s, Decide(id)))
  {
    var s' := Next(s, Decide(id));
    var e := s'.log[|s.log|];
    if s.last.Some? {
      var k := Reserved(s);
    }
    DecideSent(s, id);
    ReservationStep(s, s', e);
    hide ReservationOk, SentOk, Spaced, NamesLatest;
    HistoryAppend(s.window, s.log, e);
  }

  lemma DecideSent(s: Sys, id: nat)
    requires SentOk(s) && Enabled(s, Decide(id))
    ensures SentOk(Next(s, Decide(id)))
  {
    var s' := Next(s, Decide(id));
    var e := s'.log[|s.log|];
    assert s'.log == s.log + [e] && e.id == id;
    forall d | d in s'.runs && Past(s'.runs[d])
      ensures exists i :: 0 <= i < |s'.log| && s'.log[i].Accepted? && s'.log[i].id == d
    {
      if d == id {
        assert s'.log[|s.log|].Accepted?;
      } else {
        var i :| 0 <= i < |s.log| && s.log[i].Accepted? && s.log[i].id == d;
        assert s'.log[i] == s.log[i];
      }
    }
  }

  lemma RejectSent(s: Sys, id: nat)
    requires SentOk(s) && Enabled(s, Reject(id))
    ensures SentOk(Next(s, Reject(id)))
  {
    var s' := Next(s, Reject(id));
    forall d | d in s'.runs && Past(s'.runs[d])
      ensures exists i :: 0 <= i < |s'.log| && s'.log[i].Accepted? && s'.log[i].id == d
    {
      var i :| 0 <= i < |s.log| && s.log[i].Accepted? && s.log[i].id == d;
      assert s'.log[i] == s.log[i];
    }
  }

  lemma RejectKeeps(s: Sys, id: nat)
    requires Inv(s) && Enabled(s, Reject(id))
    ensures Inv(Next(s, Reject(id)))
  {
    ReservationStep(s, Next(s, Reject(id)), Released(id));
    RejectSent(s, id);
    hide ReservationOk, SentOk, Spaced, NamesLatest;
    HistoryAppend(s.window, s.log, Released(id));
  }

  lemma NextKeeps(s: Sys, a: Action)
    requires Inv(s) && Enabled(s, a) && s.window > 0
    ensures Inv(Next(s, a))
  {
    match a
    case Tick(_) =>
    case Start(id) =>
    case Decide(id) => DecideKeeps(s, id);
    case Dispatch(id) =>
    case Reject(id) => RejectKeeps(s, id);
    case Close =>
  }

  /** In every interleaving, for a positive window, the gate keeps all of `Inv`. */
  lemma {:induction false} RunInv(states: seq<Sys>, actions: seq<Action>, window: nat, i: nat)
    requires Run(states, actions, window) && i < |states| && window > 0
    ensures Inv(states[i]) && states[i].window == window
  {
    hide Inv;
    if i == 0 {
      InitInv(states[0]);
    } else {
      RunInv(states, actions, window, i - 1);
      NextKeeps(states[i - 1], actions[i - 1]);
    }
  }

  lemma InitInv(s: Sys)
    requires s.last == None && s.runs == map[] && s.sent == [] && s.log == []
    ensures Inv(s)
  {
  }

  /**
   A request whose clock was read less than a window after the acceptance that stands folds into
   it; one read later, or decided while no acceptance stands, is accepted.
   */
  lemma DecidedByWindow(states: seq<Sys>, actions: seq<Action>, window: nat, n: nat, id: nat)
    requires Run(states, actions, window) && n < |actions| && window > 0 && actions[n] == Decide(id)
    ensures var s, s' := states[n], states[n + 1];
      && id in s.runs && s.runs[id].Clocked?
      && var now := s.runs[id].at;
         && (forall k :: Stands(s.log, k) && now < s.log[k].at + window ==> s'.log == s.log + [Coalesced(id, s.log[k].id)])
         && ((forall k :: Stands(s.log, k) ==> s.log[k].at + window <= now) ==> s'.log == s.log + [Accepted(id, now)])
  {
    var s := states[n];
    RunInv(states, actions, window, n);
    if s.last.Some? {
      var k := Reserved(s);
    }
    hide Spaced, NamesLatest, SentOk;
  }

  /** Two accepted requests, the first still standing when the second is accepted, are stamped a window apart. */
  lemma AcceptedApart(states: seq<Sys>, actions: seq<Action>, window: nat, n: nat, i: nat, j: nat)
    requires Run(states, actions, window) && n < |states| && window > 0
    requires i < j < |states[n].log| && states[n].log[j].Accepted? && Stands(states[n].log[..j], i)
    ensures states[n].log[j].at >= states[n].log[i].at + window
  {
    RunInv(states, actions, window, n);
  }

  /** Releasing an ID other than the reserved one leaves the reservation alone. */
  lemma OldReleaseIsHarmless(states: seq<Sys>, actions: seq<Action>, window: nat, n: nat, k: nat)
    requires Run(states, actions, window) && n < |actions| && window > 0
    requires actions[n].Reject? && Stands(states[n].log, k) && states[n].log[k].id != actions[n].id
    ensures Stands(states[n + 1].log, k)
    ensures states[n + 1].last == Some(Reservation(states[n].log[k].at, states[n].log[k].id))
  {
    var s := states[n];
    RunInv(states, actions, window, n);
    assert s.last.Some?;
    var i := Reserved(s);
    StandsAppend(s.log, Released(actions[n].id), k);
    hide Inv, Stands;
  }

  /**
   Every accepted run that was awaited or dropped was sent exactly once, or found the channel
   closed and was never sent; and no coalesced run ever was.
   */
  lemma SentExactlyOnce(states: seq<Sys>, actions: seq<Action>, window: nat, n: nat, i: nat)
    requires Run(states, actions, window) && n < |states| && window > 0 && i < |states[n].log|
    ensures var s := states[n];
      && (s.log[i].Accepted? ==> s.log[i].id in s.runs && Past(s.runs[s.log[i].id]) && (s.runs[s.log[i].id] == Refused ==> !s.open))
      && (s.log[i].Accepted? ==> multiset(s.sent)[s.log[i].id] == if s.runs[s.log[i].id] == Spent then 1 else 0)
      && (s.log[i].Coalesced? ==> s.log[i].id !in s.sent)
  {
    var s := states[n];
    RunInv(states, actions, window, n);
    if s.log[i].id in s.sent {
      OccursOnce(s.sent, s.log[i].id);
    }
  }

  lemma {:induction false} OccursOnce(ids: seq<nat>, id: nat)
    requires id in ids && forall i, j :: 0 <= i < j < |ids| ==> ids[i] != ids[j]
    ensures multiset(ids)[id] == 1
  {
    var n := |ids| - 1;
    assert ids == ids[..n] + [ids[n]];
    if ids[n] == id {
      assert id !in ids[..n];
    } else {
      OccursOnce(ids[..n], id);
    }
  }

  /**
   The window must be positive: with a zero window two triggers that take the lock in the opposite
   order of their clock readings are both accepted, stamped backwards.
   */
  lemma ZeroWindowOutOfOrder(s: Sys)
    requires s == Sys(0, 0, None, map[], true, [], [])
    ensures var s1 := Next(s, Start(1));
      var s2 := Next(s1, Tick(5));
      var s3 := Next(s2, Start(2));
      var s4 := Next(s3, Decide(2));
      var s5 := Next(s4, Decide(1));
      s5.log == [Accepted(2, 5), Accepted(1, 0)] && !Spaced(0, s5.log)
  {
    var log := [Accepted(2, 5), Accepted(1, 0)];
    assert log[..1] == [Accepted(2, 5)];
    assert Stands(log[..1], 0);
  }
}
