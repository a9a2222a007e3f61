# Presence-session tracker and `/log` duration check, in Dafny

This project models the two pieces of NekochiBot that hold real logic.

**The voice presence tracker** is the `voiceStateUpdate` listener. For every voice-state change it decides one of three things:

- the member entered the watched voice channel from no channel at all;
- the member left the watched channel for no channel at all;
- the event is irrelevant.

It keeps a map from member id to the time the member entered. On a leave it reports the elapsed milliseconds and deletes the entry. When no entry exists, for example because the bot restarted while the member was connected, it reports a separate "left, no entry time on record" notice.

The model splits the listener into two parts:

- `Presence.Classify` is a pure classifier over the previous channel, the new channel and the watched channel.
- `Presence.Step` is a pure state transition over an explicit `map<MemberId, Millis>`.

`Presence.Run` applies `Step` to a sequence of events, one after the other. `Presence.OpenSince` is an independent, backwards-reading reference for what the store holds: the latest enter not followed by a leave. `PresenceLemmas` proves that `Run` agrees with that reference and that every reported duration equals the leave time minus the matching enter time.

**The `/log` command** takes optional `hours` and `minutes`. A missing option counts as 0. It converts the pair to milliseconds, refuses any total ≤ 0, and otherwise hands the total to the praise generator. `LogCommand.Execute` models this as a function from two optional integers to `Rejected | Praise(durationMs, userName)`.

Notes on the model:

- A channel counts as "absent" when its id is `null` or the empty string. This follows JavaScript's `!channelId`.
- The watched channel id must be non-empty (`ValidTarget`). Startup exits when it is missing or empty. Under that guarantee the enter test and the leave test of the listener never both hold. `EnterLeaveExclusive` shows that an empty id is the only way both could fire on one event.
- The listener has two guards: the notification channel must resolve to a text channel, and the event must carry a member. Both are folded into `VoiceEvent.sinkReady` and `VoiceEvent.member`. When either guard fails, the outcome is `Dropped` and the store does not change. The unrelated-event filter runs before the guards, so an unrelated event is always `Ignored`.
- The listener does not clamp: the elapsed time is `now - start`, so a clock that runs backwards gives a negative duration. `DurationSign` states exactly when the result is negative. `ChronologicalDurationsNonNegative` shows that a clock which never runs backwards gives non-negative durations.
- A move from the watched channel straight to another channel is not a leave, so the entry time stays on record. A move from another channel into the watched one is not an enter. This is the listener's behaviour, and `MoveOutKeepsRecord`, `MoveInRecordsNothing` state it. `MoveOutThenDisconnect` shows one consequence: a member who moves out and then disconnects from the other channel is never reported as leaving, and their entry time stays on record. The stale entry time is used up by the member's next leave from the watched channel, or replaced by their next enter. `MoveOutAndBackThenLeave` covers the first case: after moving out and back in, a disconnect reports the time since the original enter, including the time spent in the other channel.

## Model

| member | source | states |
|---|---|---|
| Presence.Classify | src/events/voiceStateUpdate.ts:24-70 | Enter exactly when the previous channel is absent and the new one is the watched channel. Leave exactly when the previous channel is the watched one and the new one is absent. Never both. Ignore whenever neither side is the watched channel. |
| Presence.Step | src/events/voiceStateUpdate.ts:21-118 | Only the event's own member's entry can change. An unrelated event gives Ignored and leaves the store as it was. Dropped happens exactly when the event touches the watched channel and a guard failed, and it leaves the store as it was. Entered happens exactly on a guarded enter and overwrites the start time with `now`. On a guarded leave: with an entry on record, Left reports `now - start` and removes only that key; without one, LeftUnrecorded leaves the store unchanged. |
| Presence.Run | src/events/voiceStateUpdate.ts:12-21 | Handling events one after the other yields one outcome per event. A member that no event mentions keeps exactly the entry they had. |
| PresenceLemmas.EnterLeaveExclusive | src/events/voiceStateUpdate.ts:49-70 | Both the enter and the leave condition hold only when both channels and the watched id are the empty string. |
| PresenceLemmas.LeaveIsReversedEnter | src/events/voiceStateUpdate.ts:49-70 | An event classifies as Enter exactly when the same event with its channels swapped classifies as Leave. |
| PresenceLemmas.MoveOutKeepsRecord | src/events/voiceStateUpdate.ts:68-70 | Moving from the watched channel to another channel is Ignore. It does not change the store. The outcome is Ignored when the guards pass and Dropped otherwise, so no leave is reported. |
| PresenceLemmas.MoveInRecordsNothing | src/events/voiceStateUpdate.ts:49-51 | Moving from another channel into the watched channel is Ignore and records no start time. The outcome is Ignored when the guards pass and Dropped otherwise. |
| PresenceLemmas.AttributeChangeIgnored | src/events/voiceStateUpdate.ts:108-117 | Staying in the watched channel while the session id changes is Ignore and leaves the store unchanged. The outcome is Ignored when the guards pass and Dropped otherwise. |
| PresenceLemmas.DurationSign | src/events/voiceStateUpdate.ts:90-91 | A reported duration is negative exactly when `now` is earlier than the recorded start, because nothing is clamped. |
| PresenceLemmas.EnterLeaveLeave | src/events/voiceStateUpdate.ts:72-92 | Enter at t1 then leave at t2 reports t2 − t1 and removes the member. A second leave then reports "no record". |
| PresenceLemmas.EnterEnterLeave | src/events/voiceStateUpdate.ts:53 | A second enter overwrites the first start time, so the following leave reports t3 − t2, not t3 − t1. |
| PresenceLemmas.LeaveAfterRestart | src/events/voiceStateUpdate.ts:72-88 | With an empty store, for example after a restart, a leave gives LeftUnrecorded and the store stays empty. |
| PresenceLemmas.MoveOutThenDisconnect | src/events/voiceStateUpdate.ts:24-29 | Enter, then a move to another channel, then a disconnect from there: no Left is ever reported, and the start time stays on record. |
| PresenceLemmas.MoveOutAndBackThenLeave | src/events/voiceStateUpdate.ts:49-92 | Enter at t1, a move to another channel, a move back, then a disconnect at t4: the disconnect reports t4 − t1 and removes the entry. The move back is not an enter, so the time spent in the other channel is counted. |
| PresenceLemmas.ThreeSteps | src/events/voiceStateUpdate.ts:19-21 | A run of three events equals three consecutive single steps. |
| PresenceLemmas.RunSnoc | src/events/voiceStateUpdate.ts:19-21 | Handling one more event appends one step to a run. |
| PresenceLemmas.RunMatchesReference | src/events/voiceStateUpdate.ts:53-92 | After any event sequence, each member's store entry is the time of their latest guarded enter not followed by a guarded leave; with neither, the entry they started with. |
| PresenceLemmas.RunOutcomeAt | src/events/voiceStateUpdate.ts:19-21 | The i-th outcome of a run is what one step makes of the i-th event, given the store the earlier events left. |
| PresenceLemmas.RunLeaveReports | src/events/voiceStateUpdate.ts:72-92 | Every guarded leave in a run reports the time since that member's latest unmatched enter, or "no record" when there is none. |
| PresenceLemmas.OpenSinceOrigin | src/events/voiceStateUpdate.ts:53 | A start time given by the reference is either the time the store already held for that member or the time of one of the events. |
| PresenceLemmas.ChronologicalDurationsNonNegative | src/events/voiceStateUpdate.ts:90-91 | When event times never decrease and every initial entry is no later than the first event, every reported duration is ≥ 0. |
| LogCommand.TotalMilliseconds | src/commands/log.ts:22 | The total is a multiple of 60000, and it holds exactly `hours * 60 + minutes` whole minutes. |
| LogCommand.Execute | src/commands/log.ts:18-38 | A request is rejected exactly when the total, with missing options taken as 0, is ≤ 0. Otherwise the praise generator receives exactly that positive total and the caller's name. |
| LogCommand.TotalRoundTrip | src/commands/log.ts:11-22 | Within the declared bounds (hours ≥ 0, minutes 0..59), hours and minutes can be read back from the total. |
| LogCommand.TotalInjective | src/commands/log.ts:11-22 | Two different in-bounds requests never produce the same total. |
| LogCommand.MissingOptionIsZero | src/commands/log.ts:19-20 | Leaving out `hours` or `minutes` behaves exactly like giving 0. |
| LogCommand.AcceptedIffSomeTime | src/commands/log.ts:11-29 | Within the declared bounds the total is ≥ 0, and the request is accepted exactly when hours ≥ 1 or minutes ≥ 1. |

## Left out

- Duration formatting (`formatDuration` in `src/utils`): that module is not part of this model. A duration is kept as a number of milliseconds.
- Discord I/O in the listener: the channel fetch, embeds, colours, author/avatar and `send`. The fetch result and the member guard are reduced to `sinkReady` and `member`. An event that fails either guard becomes `Dropped`. The model does not distinguish the logged error from the silent return.
- Asynchronous interleaving: the listener awaits the channel fetch before it touches the map. The model handles events strictly one at a time.
- The wall clock: `new Date()` becomes the event's `now`. The listener reads the clock separately at the enter (line 53) and the leave (line 90), so one `now` per event is exact.
- Object-prototype keys in the entry-time object, such as a member id `constructor`: the store is a plain map. Member ids are numeric snowflakes, so such keys do not arise.
- Startup configuration (`src/config.ts`): only its guarantee of a non-empty watched-channel id is kept, as `ValidTarget`.
- LogCommand.TotalMilliseconds: computes on unbounded integers. JavaScript numbers are doubles and are exact only below 2^53, so a huge `hours` option would round in the source.
- The praise generator (`src/gemini.ts`), `deferReply`, `editReply` and the error reply after a failed generation: these are external calls. `Praise` records only what is handed to the generator.
- Bootstrapping, command registration and dispatch (`src/index.ts`, `src/deploy-commands.ts`, `src/events/interactionCreate.ts`), the health endpoint (`src/server.ts`) and the `/gemini` command: these are glue with no state.
