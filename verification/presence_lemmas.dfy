/**
  Properties of the presence tracker: how single events are classified, and
  what a sequence of events does to the session store and to the reported
  durations.
 */
module PresenceLemmas {
  import opened Wrappers
  import opened Presence

  /** Every start time on record is no later than `t`. */
  predicate NotAfter(store: Store, t: Millis)
  {
    forall k :: k in store ==> store[k] <= t
  }

  /** Event times never go backwards. */
  predicate Chronological(evs: seq<Timed>)
  {
    forall i, j :: 0 <= i <= j < |evs| ==> evs[i].now <= evs[j].now
  }

  // ---------------------------------------------------------------------------
  // Classification of single events
  // ---------------------------------------------------------------------------

  /** Enter and leave cannot both hold of one event: that would take an empty
      watched-channel id, which startup rules out. */
  lemma EnterLeaveExclusive(before: Option<ChannelId>, after: Option<ChannelId>, target: ChannelId)
    ensures Entering(before, after, target) && Leaving(before, after, target) <==> before == after == Some(target) == Some("")
  {
  }

  /** A leave is an enter played backwards. */
  lemma LeaveIsReversedEnter(before: Option<ChannelId>, after: Option<ChannelId>, target: ChannelId)
    requires ValidTarget(target)
    ensures Classify(before, after, target) == Enter <==> Classify(after, before, target) == Leave
  {
  }

  /** Moving from the watched channel to another channel is not a leave: the
      start time stays on record and nothing is reported. */
  lemma MoveOutKeepsRecord(store: Store, ev: VoiceEvent, now: Millis, target: ChannelId)
    requires ValidTarget(target)
    requires ev.oldChannel == Some(target) && !Absent(ev.newChannel) && ev.newChannel != Some(target)
    ensures Classify(ev.oldChannel, ev.newChannel, target) == Ignore
    ensures Step(store, ev, now, target).store == store
    ensures Step(store, ev, now, target).outcome == if Handled(ev) then Ignored else Dropped
  {
  }

  /** Moving into the watched channel from another channel is not an enter:
      no start time is recorded. */
  lemma MoveInRecordsNothing(store: Store, ev: VoiceEvent, now: Millis, target: ChannelId)
    requires ValidTarget(target)
    requires !Absent(ev.oldChannel) && ev.oldChannel != Some(target) && ev.newChannel == Some(target)
    ensures Classify(ev.oldChannel, ev.newChannel, target) == Ignore
    ensures Step(store, ev, now, target).store == store
    ensures Step(store, ev, now, target).outcome == if Handled(ev) then Ignored else Dropped
  {
  }

  /** Toggling mute or deafen inside the watched channel changes nothing. */
  lemma AttributeChangeIgnored(store: Store, ev: VoiceEvent, now: Millis, target: ChannelId)
    requires ValidTarget(target)
    requires AttributeOnly(ev, target)
    ensures Classify(ev.oldChannel, ev.newChannel, target) == Ignore
    ensures Step(store, ev, now, target).store == store
    ensures Step(store, ev, now, target).outcome == if Handled(ev) then Ignored else Dropped
  {
  }

  /** The listener does not clamp: a leave reports a negative duration when the
      clock reads earlier than the recorded start, and a non-negative one otherwise. */
  lemma DurationSign(store: Store, ev: VoiceEvent, now: Millis, target: ChannelId)
    requires ValidTarget(target)
    requires Step(store, ev, now, target).outcome.Left?
    ensures var m := ev.member.value;
            Step(store, ev, now, target).outcome.durationMs < 0 <==> now < store[m]
  {
  }

  // ---------------------------------------------------------------------------
  // Concrete scenarios
  // ---------------------------------------------------------------------------

  /** Enter at `t1` then leave at `t2` reports `t2 - t1` and forgets the member;
      a second leave afterwards finds no record. */
  lemma EnterLeaveLeave(store: Store, m: MemberId, e1: VoiceEvent, e2: VoiceEvent, e3: VoiceEvent,
                        t1: Millis, t2: Millis, t3: Millis, target: ChannelId)
    requires ValidTarget(target)
    requires Opens(Timed(e1, t1), m, target)
    requires Closes(Timed(e2, t2), m, target) && Closes(Timed(e3, t3), m, target)
    ensures var r := Run(store, [Timed(e1, t1), Timed(e2, t2), Timed(e3, t3)], target);
            r.outcomes == [Entered(m), Left(m, t2 - t1), LeftUnrecorded(m)] && r.store == store - {m}
  {
    var s1 := Step(store, e1, t1, target);
    var s2 := Step(s1.store, e2, t2, target);
    var s3 := Step(s2.store, e3, t3, target);
    assert s1 == StepResult(store[m := t1], Entered(m));
    assert s2 == StepResult(store - {m}, Left(m, t2 - t1));
    assert s3 == StepResult(store - {m}, LeftUnrecorded(m));
    ThreeSteps(store, Timed(e1, t1), Timed(e2, t2), Timed(e3, t3), target);
  }

  /** A second enter before any leave overwrites the start time: the leave
      reports the time since the later enter. */
  lemma EnterEnterLeave(store: Store, m: MemberId, e1: VoiceEvent, e2: VoiceEvent, e3: VoiceEvent,
                        t1: Millis, t2: Millis, t3: Millis, target: ChannelId)
    requires ValidTarget(target)
    requires Opens(Timed(e1, t1), m, target) && Opens(Timed(e2, t2), m, target)
    requires Closes(Timed(e3, t3), m, target)
    ensures Run(store, [Timed(e1, t1), Timed(e2, t2), Timed(e3, t3)], target).outcomes
            == [Entered(m), Entered(m), Left(m, t3 - t2)]
  {
    var s1 := Step(store, e1, t1, target);
    var s2 := Step(s1.store, e2, t2, target);
    var s3 := Step(s2.store, e3, t3, target);
    assert s2 == StepResult(store[m := t2], Entered(m));
    assert s3.outcome == Left(m, t3 - t2);
    ThreeSteps(store, Timed(e1, t1), Timed(e2, t2), Timed(e3, t3), target);
  }

  /** After a restart the store is empty: a member who was already connected
      and now leaves gets the "no record" outcome, not a duration. */
  lemma LeaveAfterRestart(m: MemberId, ev: VoiceEvent, now: Millis, target: ChannelId)
    requires ValidTarget(target)
    requires Closes(Timed(ev, now), m, target)
    ensures Step(map[], ev, now, target) == StepResult(map[], LeftUnrecorded(m))
  {
  }

  /** A member who moves out to another channel and then disconnects there is
      never reported as leaving: the start time from the enter stays on record. */
  lemma MoveOutThenDisconnect(store: Store, m: MemberId, other: ChannelId, e1: VoiceEvent, e2: VoiceEvent, e3: VoiceEvent,
                              t1: Millis, t2: Millis, t3: Millis, target: ChannelId)
    requires ValidTarget(target) && other != "" && other != target
    requires Opens(Timed(e1, t1), m, target)
    requires e2.oldChannel == Some(target) && e2.newChannel == Some(other)
    requires e3.oldChannel == Some(other) && Absent(e3.newChannel)
    ensures var r := Run(store, [Timed(e1, t1), Timed(e2, t2), Timed(e3, t3)], target);
            Lookup(r.store, m) == Some(t1) && r.outcomes[0] == Entered(m) && !r.outcomes[1].Left? && r.outcomes[2] == Ignored
  {
    var s1 := Step(store, e1, t1, target);
    var s2 := Step(s1.store, e2, t2, target);
    var s3 := Step(s2.store, e3, t3, target);
    assert s1 == StepResult(store[m := t1], Entered(m));
    assert s2.store == s1.store;
    assert s3 == StepResult(s2.store, Ignored);
    ThreeSteps(store, Timed(e1, t1), Timed(e2, t2), Timed(e3, t3), target);
  }

  /** A member who moves out to another channel and back, and then
      disconnects, is reported with the time since the original enter: the move
      back is not an enter, so the stale start time is the one the leave uses,
      and the time spent in the other channel is counted. */
  lemma MoveOutAndBackThenLeave(store: Store, m: MemberId, other: ChannelId, e1: VoiceEvent, e2: VoiceEvent,
                                e3: VoiceEvent, e4: VoiceEvent, t1: Millis, t2: Millis, t3: Millis, t4: Millis,
                                target: ChannelId)
    requires ValidTarget(target) && other != "" && other != target
    requires Opens(Timed(e1, t1), m, target)
    requires e2.oldChannel == Some(target) && e2.newChannel == Some(other)
    requires e3.oldChannel == Some(other) && e3.newChannel == Some(target)
    requires Closes(Timed(e4, t4), m, target)
    ensures var r := Run(store, [Timed(e1, t1), Timed(e2, t2), Timed(e3, t3), Timed(e4, t4)], target);
            r.outcomes[3] == Left(m, t4 - t1) && m !in r.store
  {
    var evs := [Timed(e1, t1), Timed(e2, t2), Timed(e3, t3), Timed(e4, t4)];
    RunLeaveReports(store, evs, 3, m, target);
    // Reading the first three events backwards: neither move opens or closes.
    var p1, p2, p3 := [Timed(e1, t1)], [Timed(e1, t1), Timed(e2, t2)], evs[..3];
    assert OpenSince(store, p1, m, target) == Some(t1);
    assert p2[..1] == p1 && !Opens(p2[1], m, target) && !Closes(p2[1], m, target);
    assert OpenSince(store, p2, m, target) == Some(t1);
    assert p3[..2] == p2 && !Opens(p3[2], m, target) && !Closes(p3[2], m, target);
    assert OpenSince(store, p3, m, target) == Some(t1);
    RunMatchesReference(store, evs, m, target);
  }

  // ---------------------------------------------------------------------------
  // Sequences of events
  // ---------------------------------------------------------------------------

  /** A run of three events is three steps in a row. */
  lemma ThreeSteps(store: Store, a: Timed, b: Timed, c: Timed, target: ChannelId)
    requires ValidTarget(target)
    ensures var s1 := Step(store, a.event, a.now, target);
            var s2 := Step(s1.store, b.event, b.now, target);
            var s3 := Step(s2.store, c.event, c.now, target);
            Run(store, [a, b, c], target) == RunResult(s3.store, [s1.outcome, s2.outcome, s3.outcome])
  {
    RunSnoc(store, [], a, target);
    assert [a] + [b] == [a, b];
    RunSnoc(store, [a], b, target);
    assert [a, b] + [c] == [a, b, c];
    RunSnoc(store, [a, b], c, target);
  }

  /** Handling one more event extends a run by one step. */
  lemma {:induction false} RunSnoc(store: Store, evs: seq<Timed>, e: Timed, target: ChannelId)
    requires ValidTarget(target)
    ensures var p := Run(store, evs, target);
            var s := Step(p.store, e.event, e.now, target);
            Run(store, evs + [e], target) == RunResult(s.store, p.outcomes + [s.outcome])
    decreases |evs|
  {
    if |evs| == 0 {
      assert evs + [e] == [e];
      assert [e][1..] == [];
    } else {
      var first := Step(store, evs[0].event, evs[0].now, target);
      assert (evs + [e])[1..] == evs[1..] + [e];
      RunSnoc(first.store, evs[1..], e, target);
    }
  }

  /** The store after a run agrees, member by member, with the reference
      semantics: the latest enter not followed by a leave. */
  lemma {:induction false} RunMatchesReference(store: Store, evs: seq<Timed>, m: MemberId, target: ChannelId)
    requires ValidTarget(target)
    ensures Lookup(Run(store, evs, target).store, m) == OpenSince(store, evs, m, target)
    decreases |evs|
  {
    if |evs| > 0 {
      var init := evs[..|evs| - 1];
      var last := evs[|evs| - 1];
      assert evs == init + [last];
      RunSnoc(store, init, last, target);
      RunMatchesReference(store, init, m, target);
    }
  }

  /** The outcome reported for the `i`-th event is what `Step` makes of it in
      the store left by the events before it. */
  lemma {:induction false} RunOutcomeAt(store: Store, evs: seq<Timed>, i: nat, target: ChannelId)
    requires ValidTarget(target)
    requires i < |evs|
    ensures Run(store, evs, target).outcomes[i]
            == Step(Run(store, evs[..i], target).store, evs[i].event, evs[i].now, target).outcome
    decreases |evs|
  {
    var init := evs[..|evs| - 1];
    var last := evs[|evs| - 1];
    assert evs == init + [last];
    RunSnoc(store, init, last, target);
    if i < |evs| - 1 {
      RunOutcomeAt(store, init, i, target);
      assert init[..i] == evs[..i];
    } else {
      assert init == evs[..i];
    }
  }

  /** Every leave in a run reports the time since the member's latest
      unmatched enter, or "no record" when there is none. */
  lemma RunLeaveReports(store: Store, evs: seq<Timed>, i: nat, m: MemberId, target: ChannelId)
    requires ValidTarget(target)
    requires i < |evs|
    requires Closes(evs[i], m, target)
    ensures var o := Run(store, evs, target).outcomes[i];
            match OpenSince(store, evs[..i], m, target)
            case Some(start) => o == Left(m, evs[i].now - start)
            case None => o == LeftUnrecorded(m)
  {
    RunOutcomeAt(store, evs, i, target);
    RunMatchesReference(store, evs[..i], m, target);
  }

  /** A start time given by the reference semantics is the time the store
      already held for the member or the time of one of the events. */
  lemma {:induction false} OpenSinceOrigin(store: Store, evs: seq<Timed>, m: MemberId, target: ChannelId)
    ensures var o := OpenSince(store, evs, m, target);
            o.Some? ==> (m in store && o.value == store[m]) || exists i :: 0 <= i < |evs| && evs[i].now == o.value
    decreases |evs|
  {
    if |evs| > 0 {
      var init := evs[..|evs| - 1];
      var last := evs[|evs| - 1];
      OpenSinceOrigin(store, init, m, target);
      var o := OpenSince(store, evs, m, target);
      if o.Some? && !Opens(last, m, target) && !Closes(last, m, target) && !(m in store && o.value == store[m]) {
        var i :| 0 <= i < |init| && init[i].now == o.value;
        assert evs[i].now == o.value;
      }
    }
  }

  /** With a clock that never runs backwards, every reported duration is
      non-negative. */
  lemma ChronologicalDurationsNonNegative(store: Store, evs: seq<Timed>, i: nat, target: ChannelId)
    requires ValidTarget(target)
    requires Chronological(evs)
    requires i < |evs| && NotAfter(store, evs[0].now)
    requires Run(store, evs, target).outcomes[i].Left?
    ensures Run(store, evs, target).outcomes[i].durationMs >= 0
  {
    RunOutcomeAt(store, evs, i, target);
    var m := Run(store, evs, target).outcomes[i].member;
    RunLeaveReports(store, evs, i, m, target);
    OpenSinceOrigin(store, evs[..i], m, target);
    var o := OpenSince(store, evs[..i], m, target);
    if o.Some? && !(m in store && o.value == store[m]) {
      var j :| 0 <= j < |evs[..i]| && evs[..i][j].now == o.value;
      assert evs[j].now <= evs[i].now;
    }
  }
}
