/**
  The presence-session tracker of the `voiceStateUpdate` listener.

  Every voice-state event names the member's previous and new channel.  The
  listener ignores events that do not touch the watched channel, starts a
  session when a member appears in the watched channel from nowhere, and ends
  it when a member disconnects from the watched channel.  Sessions live in a
  map from member id to the millisecond time the session started.

  The listener is split here into a pure classifier (`Classify`) and a pure
  state transition (`Step`) over an explicit store; `Run` folds `Step` over a
  sequence of events, which are handled strictly one after the other.
 */
module Presence {
  import opened Wrappers

  type ChannelId = string
  type MemberId = string
  /** Milliseconds since the epoch, as `Date.getTime()` returns them. */
  type Millis = int

  /** Active sessions: member id to the time the member entered. */
  type Store = map<MemberId, Millis>

  /** One raw voice-state change, as the gateway delivers it. */
  datatype VoiceEvent = VoiceEvent(
    oldChannel: Option<ChannelId>,  // channel before the change (null when not connected)
    newChannel: Option<ChannelId>,  // channel after the change (null when disconnected)
    oldSession: Option<string>,     // voice session id before the change
    newSession: Option<string>,     // voice session id after the change
    member: Option<MemberId>,       // the member of the new state, else of the old state
    sinkReady: bool)                // the notification channel resolved to a text channel

  /** An event together with the wall-clock time at which it is handled. */
  datatype Timed = Timed(event: VoiceEvent, now: Millis)

  /** What the classifier makes of a pair of channels. */
  datatype Transition = Enter | Leave | Ignore

  /** What handling one event reports to the notifier. */
  datatype Outcome =
    | Ignored                                   // not a session boundary
    | Dropped                                   // touches the watched channel, but a guard failed
    | Entered(member: MemberId)                 // session started ("study started")
    | Left(member: MemberId, durationMs: int)   // session ended after `durationMs`
    | LeftUnrecorded(member: MemberId)          // left, but no start time was on record

  datatype StepResult = StepResult(store: Store, outcome: Outcome)

  datatype RunResult = RunResult(store: Store, outcomes: seq<Outcome>)

  /** A channel id the listener treats as "not in any channel": JavaScript's
      `!channelId` holds for `null` and for the empty string. */
  predicate Absent(c: Option<ChannelId>)
  {
    c.None? || c.value == ""
  }

  /** The configured watched channel; startup refuses to run without a non-empty one. */
  predicate ValidTarget(target: ChannelId)
  {
    target != ""
  }

  /** The event has the watched channel on at least one side. */
  predicate Touches(before: Option<ChannelId>, after: Option<ChannelId>, target: ChannelId)
  {
    before == Some(target) || after == Some(target)
  }

  /** From no channel straight into the watched channel. */
  predicate Entering(before: Option<ChannelId>, after: Option<ChannelId>, target: ChannelId)
  {
    Absent(before) && after == Some(target)
  }

  /** From the watched channel to no channel at all. */
  predicate Leaving(before: Option<ChannelId>, after: Option<ChannelId>, target: ChannelId)
  {
    before == Some(target) && Absent(after)
  }

  /** Staying in the watched channel while the voice session id changes
      (mute, deafen and similar toggles). */
  predicate AttributeOnly(ev: VoiceEvent, target: ChannelId)
  {
    ev.oldChannel == Some(target) && ev.newChannel == Some(target) && ev.oldSession != ev.newSession
  }

  /** The guards the listener checks after filtering: the notification channel
      was found and the event carries a member. */
  predicate Handled(ev: VoiceEvent)
  {
    ev.sinkReady && ev.member.Some?
  }

  /** Classifies a channel change relative to the watched channel, in the
      listener's order: the unrelated-event filter, the enter test, the leave test. */
  function Classify(before: Option<ChannelId>, after: Option<ChannelId>, target: ChannelId): (t: Transition)
    requires ValidTarget(target)
    ensures t == Enter <==> Entering(before, after, target)
    ensures t == Leave <==> Leaving(before, after, target)
    ensures !Touches(before, after, target) ==> t == Ignore
  {
    if !Touches(before, after, target) then Ignore
    else if Entering(before, after, target) then Enter
    else if Leaving(before, after, target) then Leave
    else Ignore
  }

  /** Handles one event at time `now` against the session store. */
  function Step(store: Store, ev: VoiceEvent, now: Millis, target: ChannelId): (r: StepResult)
    requires ValidTarget(target)
    // Only the event's own member can have their record touched.
    ensures forall k :: Some(k) != ev.member ==> Lookup(r.store, k) == Lookup(store, k)
    // Unrelated events, failed guards and non-boundary changes leave the store alone.
    ensures !Touches(ev.oldChannel, ev.newChannel, target) ==> r == StepResult(store, Ignored)
    ensures Touches(ev.oldChannel, ev.newChannel, target) && !Handled(ev) ==> r == StepResult(store, Dropped)
    ensures r.outcome.Ignored? || r.outcome.Dropped? || r.outcome.LeftUnrecorded? ==> r.store == store
    ensures r.outcome.Dropped? <==> Touches(ev.oldChannel, ev.newChannel, target) && !Handled(ev)
    // A session starts exactly on an enter, overwriting any earlier start time.
    ensures r.outcome.Entered? <==> Handled(ev) && Entering(ev.oldChannel, ev.newChannel, target)
    ensures r.outcome.Entered? ==> Some(r.outcome.member) == ev.member && r.store == store[r.outcome.member := now]
    // A leave reports elapsed time and forgets the member, or reports that no start was recorded.
    ensures r.outcome.Left? || r.outcome.LeftUnrecorded? <==> Handled(ev) && Leaving(ev.oldChannel, ev.newChannel, target)
    ensures r.outcome.Left? ==>
              && Some(r.outcome.member) == ev.member
              && r.outcome.member in store
              && r.outcome.durationMs == now - store[r.outcome.member]
              && r.store == store - {r.outcome.member}
    ensures r.outcome.LeftUnrecorded? ==> Some(r.outcome.member) == ev.member && r.outcome.member !in store
  {
    if !Touches(ev.oldChannel, ev.newChannel, target) then
      StepResult(store, Ignored)
    else if !Handled(ev) then
      StepResult(store, Dropped)
    else
      var m := ev.member.value;
      match Classify(ev.oldChannel, ev.newChannel, target)
      case Enter => StepResult(store[m := now], Entered(m))
      case Leave =>
        if m in store then StepResult(store - {m}, Left(m, now - store[m]))
        else StepResult(store, LeftUnrecorded(m))
      case Ignore => StepResult(store, Ignored)
  }

  /** Some event of `evs` belongs to member `k`. */
  predicate Mentions(evs: seq<Timed>, k: MemberId)
  {
    exists i :: 0 <= i < |evs| && evs[i].event.member == Some(k)
  }

  /** Handles the events one after the other, starting from `store`. */
  function Run(store: Store, evs: seq<Timed>, target: ChannelId): (r: RunResult)
    requires ValidTarget(target)
    ensures |r.outcomes| == |evs|
    // Members that no event is about keep exactly the record they had.
    ensures forall k :: !Mentions(evs, k) ==> Lookup(r.store, k) == Lookup(store, k)
    decreases |evs|
  {
    if |evs| == 0 then RunResult(store, [])
    else
      var first := Step(store, evs[0].event, evs[0].now, target);
      var rest := Run(first.store, evs[1..], target);
      RunResult(rest.store, [first.outcome] + rest.outcomes)
  }

  /** The event opens a session for `m`. */
  predicate Opens(e: Timed, m: MemberId, target: ChannelId)
  {
    e.event.member == Some(m) && e.event.sinkReady && Entering(e.event.oldChannel, e.event.newChannel, target)
  }

  /** The event closes `m`'s session, recorded or not. */
  predicate Closes(e: Timed, m: MemberId, target: ChannelId)
  {
    e.event.member == Some(m) && e.event.sinkReady && Leaving(e.event.oldChannel, e.event.newChannel, target)
  }

  /** Reference semantics of the store, read backwards: after `evs`, member `m`
      has the start time of their latest enter unless a leave came after it;
      with neither, whatever `store` held before. */
  function OpenSince(store: Store, evs: seq<Timed>, m: MemberId, target: ChannelId): Option<Millis>
    decreases |evs|
  {
    if |evs| == 0 then Lookup(store, m)
    else
      var last := evs[|evs| - 1];
      if Opens(last, m, target) then Some(last.now)
      else if Closes(last, m, target) then None
      else OpenSince(store, evs[..|evs| - 1], m, target)
  }
}
