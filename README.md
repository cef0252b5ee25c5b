# Dataplicity agent client: per-cycle bookkeeping

A Dafny model of the `Client` class of the dataplicity device agent (`dataplicity/client.py`).
The agent runs a periodic loop. Each cycle it may report disk usage to a management server
and then runs a sync cycle. Remote calls go out in *batches*: ordered lists of named calls
sent in one round trip, which can be abandoned before they are sent.

The model is made of four modules:

- `PyModel` (`pymodel.dfy`): the Python notions the client depends on.
  - Optional values and results of foreign calls.
  - The exceptions that can reach the client. `SystemExit` and `KeyboardInterrupt` are kept apart from ordinary `Exception`s.
  - Python values with their truthiness.
  - The outcome of a call: it returns, or an exception leaves it.
- `JsonRpcBatch` (`batch.dfy`): the batch object.
  - It is a class whose fields (`calls`, `abandoned`, `sent`) change in place.
  - `BatchView` is what a batch holds, as a value.
  - What the transport answers is an input value, `Replies`. It says whether the send raises, which result slots fault under `get_result`, and what `check` raises. `GetResult` is how `get_result` is answered from it: the recorded fault for that name is raised, and otherwise the call returns.
- `DiskSchedule` (`schedule.dfy`): the disk-poll timer.
  - The due test and the re-arm relative to "now".
  - A function giving the polls, in a sequence of polls, at which a report is due.
  - Lemmas showing that due polls never bunch up, along any trace of due times kept by re-arming.
- `DataplicityClient` (`client.dfy`):
  - Pure functions for the calls each batch is built from, the sync id, and how exceptions become results.
  - Functions giving the batches one `poll` opens, as values, and lemmas about their shape over a whole run.
  - The `Client` class with the fields `nextDiskPollTime`, `sentMeta`, `exitEvent` and `batches`. `batches` records what every batch the client opened held when its `with` block ended.
  - Ghost counters for `poll` and `close` calls, and a ghost lock flag.
  - `run_forever` returns a ghost trace of the run: each poll's outcome, the due time in force at each poll, and the batches each poll opened.

These come from outside, as inputs:
- the clock, as integer seconds;
- the results of the disk probe and the metadata probe;
- the random draws behind the sync id;
- the transport's replies.

`run_forever` takes a finite schedule of poll environments. Each "wait" times out while the exit event is clear and another poll environment remains. When they run out, another thread sets the event.

## The code as written

The model follows the code. The places where the code's behaviour is worth pointing out:

- `_sync_meta` never returns a truthy value. It returns `False` when metadata was already sent (client.py:157-158), and otherwise falls off its end, returning `None`. So `_sync` abandons its batch on every cycle (client.py:142-143), and the batch is never sent.
  - The authentication result is never read and `_check_meta` never runs from `_sync`.
  - `sentMeta` never changes during a run (`Client.SyncOnce`, `Client.Sync`, `Client.RunForever`). The flag that `_check_meta` sets after "Success! Don't send again." (client.py:200-201) is never set.
  - So no batch that was sent ever carries a metadata call (`RunBatchesShape`).
- `_check_meta`'s handler calls `self.log.warning` (client.py:198), but `Client` defines no `log` attribute. So a `check` failure that is an `Exception` turns into an `AttributeError` (`Client.CheckMeta`).
- `set_m2m_identity`'s docstring (client.py:204-207) says it returns the identity or `None`. With no auth token, the code first reads `self.disable_sync` (client.py:209), which `Client` does not define. So it raises `AttributeError` before reaching `return None` (client.py:211) and before any batch is opened (`M2mOutcome`, `Client.SetM2mIdentity`).
- `sync` catches only `Exception`, so `SystemExit` and `KeyboardInterrupt` are not swallowed there. `set_m2m_identity`'s bare `except:` swallows them.
- `poll` calls `disk_poll` (client.py:107) outside `sync`'s `try`. So a failing disk probe, or a failing send of the disk batch, skips that cycle's sync and ends `run_forever`. An interrupt gives a normal return; any other exception is re-raised (`Client.Poll`, `Client.RunForever`).
- `disk_poll` re-arms its timer before it probes the disk (client.py:85-86). So a failing probe still pushes the next report one interval away (`Client.DiskPoll`).

## Model

| member | source | states |
|---|---|---|
| `JsonRpcBatch.Batch.constructor` | dataplicity/client.py:133 | `remote.batch()` gives a batch with no calls, neither abandoned nor sent |
| `JsonRpcBatch.Batch.CallWithId` | dataplicity/client.py:134-141 | appends exactly one call at the end of the batch; flags unchanged |
| `JsonRpcBatch.Batch.Abandon` | dataplicity/client.py:142-143 | marks the batch abandoned; calls and `sent` unchanged |
| `JsonRpcBatch.Batch.ExitScope` | dataplicity/client.py:133-145 | leaving the `with` scope: an abandoned batch is not sent and nothing raises; otherwise it is sent once and `sent` is set exactly when the send did not raise, the send's exception being raised otherwise (`SendStatus`) |
| `DiskSchedule.NextDue` | dataplicity/client.py:84-85 | a poll is due when the clock has reached the due time (`DiskPollDue`, client.py:84); a due poll re-arms the timer to its own time plus the interval, so with a positive interval a second poll at the same time is not due; a poll that is not due leaves the timer alone |
| `DiskSchedule.FirstReportNotEarly` | dataplicity/client.py:84-85 | over any sequence of polls, the first poll at which a report is due is at or after the starting due time |
| `DiskSchedule.ReportsSpaced` | dataplicity/client.py:84-85 | over any sequence of poll times, however late or irregular, consecutive polls at which a report is due are at least one interval apart (re-arming from "now" causes no catch-up bursts) |
| `DiskSchedule.RearmedDueTimes` | dataplicity/client.py:84-85 | along any trace of due times kept by re-arming, the polls at which a report was due are exactly the report times of the schedule started from the first due time |
| `DiskSchedule.RearmedReportsSpaced` | dataplicity/client.py:84-85 | along any such trace, consecutive polls at which a report was due are at least one interval apart |
| `DataplicityClient.MakeSyncId` | dataplicity/client.py:115-120 | the sync id has exactly 12 characters, all in `a`–`z` |
| `DataplicityClient.MakeSyncIdCovers` | dataplicity/client.py:117-119 | every 12-letter lower-case string is a possible sync id |
| `DataplicityClient.MetaCalls` | dataplicity/client.py:165-184 | exactly four calls with distinct result names: agent version, machine type, OS version, uname, in that order, each with its argument; the machine type sent is never falsy, and falsy becomes `'other'` |
| `DataplicityClient.SyncBatchCalls` | dataplicity/client.py:133-143 | the sync batch starts with `device.check_auth` under `authenticate_result` carrying device class, serial, auth token and sync id; no later call is `check_auth`; it holds the four metadata calls after it exactly when the flag is clear and the probe succeeded; result names are distinct |
| `DataplicityClient.DiskBatchCalls` | dataplicity/client.py:88-101 | the disk batch is `check_auth` (no sync id) then `set_disk_space` carrying the probe's total and used bytes; result names are distinct |
| `DataplicityClient.M2mBatchCalls` | dataplicity/client.py:217-225 | the identity batch is `check_auth` then `m2m.associate`; a truthy identity is sent as is, a falsy one as `''` |
| `DataplicityClient.Isolate` | dataplicity/client.py:122-127 | what leaves `sync` is never an `Exception`; a `SystemExit` or `KeyboardInterrupt` passes through unchanged; a normal return stays normal |
| `DataplicityClient.RunExit` | dataplicity/client.py:65-80 | `run_forever` returns normally exactly when the loop ended normally or by `SystemExit` or `KeyboardInterrupt`; any other exception is re-raised unchanged |
| `DataplicityClient.M2mOutcome` | dataplicity/client.py:203-242 | with no auth token the result is an `AttributeError` on `disable_sync`; with a token it never raises, returns the identity when the send and both results are acknowledged, and `None` on every fault (remote fault, unreachable server, anything else) |
| `DataplicityClient.DiskPollViews` | dataplicity/client.py:82-101 | `disk_poll` opens one batch exactly when the report is due and the probe succeeded; that batch holds the disk calls, is not abandoned, and is sent exactly when its send did not raise |
| `DataplicityClient.PollViewsShape` | dataplicity/client.py:103-108 | one `poll` opens at most two batches; each starts with `check_auth`, and none that was sent carries a metadata call |
| `DataplicityClient.RunBatchesShape` | dataplicity/client.py:64-69 | over all the polls of a run, every batch opened starts with `check_auth` and no batch that was sent carries a metadata call |
| `DataplicityClient.DuesGrow` | dataplicity/client.py:84-85 | with an interval that is not negative, the due time never moves back along a run, whatever the clock does |
| `DataplicityClient.RunDiskPollsSpaced` | dataplicity/client.py:82-101 | with an interval that is not negative, any two polls of a run at which a report was due, consecutive or not, are at least one interval apart; so are any two polls that opened a disk batch, however irregular the clock |
| `DataplicityClient.RunDueTimes` | dataplicity/client.py:64-69 | along the due times of a run's polls, the polls at which a disk report was due are the schedule's report times, and consecutive ones are at least one interval apart |
| `DataplicityClient.Client.constructor` | dataplicity/client.py:30-52 | a new client has its disk report due at construction time, metadata not sent, the exit event clear and no batches |
| `DataplicityClient.Client.Close` | dataplicity/client.py:110-112 | `close` changes nothing but the count of its calls |
| `DataplicityClient.Client.DiskPoll` | dataplicity/client.py:82-101 | the outcome is `DiskPollStatus`: normal when not due, else the probe's exception, else the send's (`SendStatus`); when due, the timer becomes exactly `now` + interval even if the probe then fails; the batches recorded grow by exactly `DiskPollViews`; when not due, no field changes |
| `DataplicityClient.Client.SyncMeta` | dataplicity/client.py:155-184 | with the flag set: returns `False`, appends nothing; with it clear: appends the four metadata calls in order if the probe succeeded, nothing if it failed, and returns `None`; always falsy |
| `DataplicityClient.Client.CheckMeta` | dataplicity/client.py:186-201 | a no-op once metadata is sent; otherwise the flag is set exactly when `check` succeeds; a failing `check` leaves it clear and raises `AttributeError` on `log`, or the interrupt itself; the flag never goes from true to false |
| `DataplicityClient.Client.VerifySent` | dataplicity/client.py:145-149 | an unsent batch changes nothing; for a sent one, an authentication fault is raised and the flag is unchanged; otherwise the outcome and the flag are exactly those of `_check_meta` |
| `DataplicityClient.Client.SyncOnce` | dataplicity/client.py:129-153 | opens exactly one batch, `SyncView`: the sync batch calls for the current flag and probe, abandoned and never sent; nothing raises; no field other than the batch record changes |
| `DataplicityClient.Client.Sync` | dataplicity/client.py:122-127 | runs one sync cycle under the lock and releases it; returns normally; records exactly the sync batch; the metadata flag and the timer are unchanged |
| `DataplicityClient.Client.Poll` | dataplicity/client.py:103-108 | the outcome is the disk poll's; the timer follows `NextDue`; the batches recorded grow by exactly `PollViews`: the disk batch, if any, then the sync batch (`SyncView`) unless the disk poll raised |
| `DataplicityClient.Client.TracedPoll` | dataplicity/client.py:68-69 | one more poll of a run extends the run's trace by its outcome, the due time it leaves and the batches it opened |
| `DataplicityClient.Client.PollLoop` | dataplicity/client.py:67-69 | the first poll, then the `while` loop, which makes no further poll when the event is set at entry; the trace covers every poll made, in order, starting from the timer in force |
| `DataplicityClient.Client.WaitAndPoll` | dataplicity/client.py:68-69 | the loop polls again only after a poll that returned, while the event is clear and the schedule lasts, and not at all when the event is set at entry; all but the last outcome are normal returns |
| `DataplicityClient.Client.RunForever` | dataplicity/client.py:64-80 | polls once, then once more after each wait that returns false, and stops once the exit event is set or a poll raises; with the event already set at entry it polls exactly once; the k-th poll's outcome is the disk-poll status for its environment and the due time in force, which re-arms as `NextDue` says; the timer ends at the last due time; the batches recorded are exactly those the polls opened, in order; `close` runs exactly once; an interrupt from a poll gives a normal return, any other exception is re-raised; the metadata flag is unchanged |
| `DataplicityClient.Client.SetM2mIdentity` | dataplicity/client.py:203-242 | the outcome is `M2mOutcome`; with no auth token no batch is recorded; otherwise exactly one batch with the identity calls is recorded, not abandoned, and sent exactly when the send did not raise |
| `DataplicityClient.InterruptedRuns` | tests/dataplicity/test_client.py:41-65 | a new client whose first poll gets `SystemExit` from the disk probe, then in a second run `KeyboardInterrupt`, returns normally from both runs, and `close` has run once, then twice |

## Left out

- Configuration and start-up (`__init__` beyond the initial field values, `_init`): settings parsing, value resolution, the RPC URL, logging of the configuration. The constructor takes the serial, auth token and disk interval as parameters.
- The JSON-RPC transport and the batch's internals. Serialisation, sending, how one fault spreads to other slots, `NotSentError` and duplicate-name errors are not modelled. The transport's answers per batch are inputs (`Replies`). The call builders prove result names are distinct within each batch, so a duplicate name cannot arise. The values `get_result` decodes are not modelled, only whether it raises.
- The m2m and port-forwarding managers (composition at start-up only).
- The metadata and disk probes: their results are inputs. A metadata dictionary missing a key is not modelled.
- Concurrency: the sync lock is a ghost flag held during `_sync`. The cross-thread `Event.wait` timing and the float poll interval are replaced by the finite schedule given to `run_forever`. A run that truly never ends is not modelled.
- Interrupts delivered at arbitrary points are modelled only where a probe or the transport raises them.
- Real time: time is integer seconds supplied by the caller. The elapsed-time measurement of `_sync` and the time read in `poll` only feed logging and are left out.
- Randomness: `random.choice` is replaced by caller-supplied draws.
- Logging output throughout.
- The batch record: `batches` holds the value of each batch (`Batch.View`, its calls and both flags) when its `with` block ended. The `Batch` objects are not kept after that, so what the transport or other code might do to them later is not modelled.
- InterruptedRuns: the test replaces `poll` itself with one that raises. In the model, the interrupt comes from the disk probe, which `poll` does not catch.
- RunDiskPollsSpaced: stated only for an interval that is not negative. With a negative interval the due time can move back: a clock that goes backwards then permits two disk batches less than one interval apart.
