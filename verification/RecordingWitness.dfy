/**
 Why threads between their exit and their buffer's drop are exempt: a run in which a drain ends
 while such a buffer still holds an event whose recording call had returned before the bump.
 */
module RecordingWitness {
  import opened Collector
  import opened SegmentSpec
  import opened RecordingProtocol
  import opened RecordingRuns
  import opened RecordingScenes

  /** Thread 1 records one event and exits; its buffer's drop has not run yet when the loop exits too. */
  lemma RecordsAndExits(k: Settings, p: Pace, s: Sys, z: Sizes) returns (s': Sys, v: Scene)
    requires k.capacity > 0 && k.header + z.event < k.batchSize && p.At? && Init(k, s)
    ensures Reaches(k, p, s, s') && Shows(s', v, Deciding(true))
    ensures v == Scene([NewThread(k), Buffered(k, z, 1).(pc := Dying)], [1], [], 0, false, 0, Enabled, SendersGone, {}, false, s.writer)
  {
    hide Reaches, Init, Shows;
    var s1, v1 := EnableSpawn(k, p, s);
    var s2 := FirstCall(k, p, s, s1, v1, Waiting, z, 1);
    var v2 := v1.(threads := [NewThread(k), Buffered(k, z, 1)], handles := [1]);
    assert WithThread(v1, 1, Buffered(k, z, 1)).(handles := v1.handles + [1]) == v2;
    var s3 := Exits(k, p, s, s2, v2, z, 1);
    var v3 := v2.(threads := [NewThread(k), Buffered(k, z, 1).(pc := Dying)]);
    assert WithThread(v2, 1, Buffered(k, z, 1).(pc := Dying)) == v3;
    var s4 := LosesSenders(k, p, s, s3, v3);
    v := v3.(stop := SendersGone);
    s' := Wakes(k, p, s, s4, v, true);
  }

  /**
   From every fresh recorder whose batches hold more than an event, some run ends a drain with a
   returned event still in the buffer of an exited thread: the exemption is needed.
   */
  lemma ExitedThreadEscapesDrain(k: Settings, s: Sys, z: Sizes)
      returns (states: seq<Sys>, actions: seq<Action>, times: seq<real>, bump: nat)
    requires k.capacity > 0 && k.header + z.event < k.batchSize && Init(k, s)
    ensures Run(k, states, actions) && states[0] == s && bump < |actions|
    ensures Clocked(actions, times, s.writer.segmentStartedAt, s.writer.segmentStartedAt)
    ensures var last := states[|actions|];
      && last.flusher.InDrain? && last.flusher.drain.at == |last.flusher.drain.handles|
      && BumpedAt(states, bump, last.drainEpoch)
      && |states[bump].threads| == |last.threads| == 2 && last.threads[1].pc == Dying
      && last.threads[1].events == [Event(1, 0)] && 0 < states[bump].threads[1].returned
  {
    hide Next, Allowed, Init, Reaches, Told;
    var now := s.writer.segmentStartedAt;
    var p := At(now);
    var s1, v := RecordsAndExits(k, p, s, z);
    Decides(k, s1, v, true, now);
    var a := Decide(now, []);
    var bumped := Next(k, s1, a);
    Stay(k, p, bumped);
    var s2 := Passes(k, p, bumped, bumped, DecidedScene(v, true, now), TickOf(v, true));
    ToldStart(k, s, now);
    var before, first, clock := TellStretch(k, [s], [], [], now, now, now, s1);
    bump := |first|;
    var middle, second, ticks := TellStep(k, before, first, clock, now, now, a, now);
    states, actions, times := TellStretch(k, middle, second, ticks, now, now, now, s2);
    assert states[0] == [s][0] && states[bump] == before[bump] && states[bump + 1] == middle[bump + 1];
    ToldMeans(k, states, actions, times, now, now);
    RunOf(k, states, actions);
  }

  lemma ToldMeans(k: Settings, states: seq<Sys>, actions: seq<Action>, times: seq<real>, from: real, to: real)
    requires Told(k, states, actions, times, from, to)
    ensures Chain(k, states, actions) && Clocked(actions, times, from, to)
  {
    hide Chain, Clocked;
  }
}
