# maps4fs web front end: request handling core, in Dafny

This project models the request-handling logic of `GeneratorUI` in the maps4fs
Streamlit front end (`webui/generator.py`): the checks `generate_map` makes on
the coordinates, the map size and the JSON inputs before anything is queued; the
public-server queue discipline (enqueue, wait, drive the engine inside
`try`/`except`/`finally`, release in `finally`); the progress-bar arithmetic;
the public-server restrictions (button guard, disabled fields, forced settings);
`snake_to_human`; and the `generated` flag hand-off that offers the archive for
download and schedules its deferred deletion.

Collaborators whose code is not part of this model are given as data or as
function-valued parameters: Python's `int()`, `float()` and `json.loads`, the
`maps4fs` engine (`Engine`: component count, stage names yielded, where it
raises, archive path), the queuing module (`Waiting`: positions yielded by
`wait_in_queue` and whether it raises), and the timestamp-derived session name.
Calls into the queuing module are recorded in an ordered event log
(`Orchestrator.Event`) together with the queue positions and progress updates
shown to the user; no semantics of the queue itself are assumed.

Files: `wrappers.dfy` (Option/Result), `text.dfy` (split/join, capitalisation,
`snake_to_human`, decimals), `validation.dfy` (coordinates and map size),
`public_limits.dfy` (public-server limits), `progress.dfy` (progress values),
`orchestrator.dfy` (`generate_map`), `page.dfy` (Generate button and download block).

Behaviour of the code worth noting:

- Coordinates are two comma-separated floats with no range check, so `91,0` is accepted (`Validation.CoordinatesNotRangeChecked`).
- The map size must only be even and square. Zero and negative even sizes pass, and so does `6x6`, although the error message speaks of powers of two (`Validation.EvenNonPowerOfTwoAccepted`).
- An exception from `wait_in_queue` happens after `add_to_queue` but outside the `try`. It leaves `generate_map` without `remove_from_queue`, so the slot is not released (`Orchestrator.QueueAndGenerate`).
- Some exceptions raised before the queue leave `generate_map` uncaught: a `KeyError` from `limit_on_public` on a raw configuration that lacks a category, and errors from the settings parser or the `Map` constructor. They are the `Raised` outcome.
- The Generate-button guard is only evaluated when the page is drawn, not atomically with the enqueue.

## Model

| member | source | states |
|---|---|---|
| `Text.Split` | webui/generator.py:82 | `text.split(sep)` yields exactly one more piece than `text` has separators, so never an empty list |
| `Text.JoinSplit` | webui/generator.py:82 | joining the pieces of `s.split(sep)` with `sep` gives back `s` |
| `Text.SplitJoin` | webui/generator.py:291 | splitting a join of separator-free pieces gives back exactly those pieces |
| `Text.SplitPiecesAvoidSeparator` | webui/generator.py:82 | no piece produced by the split contains the separator |
| `Text.SnakeToHuman` | webui/generator.py:220-229 | `snake_to_human` keeps the length; each `_` becomes a space; the first character of each `_`-separated word is upper-cased and every other character lower-cased |
| `Text.Decimal` | webui/generator.py:291 | `str(n)` is a non-empty string of digits that denotes `n` read most significant digit first, with no leading zero except for `0` itself |
| `Validation.ParsePair` | webui/generator.py:73-82 | `tuple(map(parse, text.split(sep)))` unpacks into two values exactly when there are two pieces and both parse, and then holds the two parsed values |
| `Validation.ParseCoordinates` | webui/generator.py:67-73 | the coordinates text yields a pair iff it has exactly one comma and both sides parse as floats, and then the pair is the two parsed values |
| `Validation.ParseMapSize` | webui/generator.py:76-82 | the size text yields a pair iff it has exactly one `x` and both sides parse as integers, and then the pair is the two parsed values |
| `Validation.CheckMapSize` | webui/generator.py:464-476 | a size is accepted iff it splits on `x` into two parsed integers that are even and equal; an unparsable size gets the invalid-size message, an odd one the evenness message, and only an even non-square one the squareness message |
| `Validation.CustomSizeRoundTrip` | webui/generator.py:291 | the custom size text `f"{v}x{v}"` is accepted with side `v` iff `v` is even, and otherwise gets the evenness message |
| `Validation.EvenNonPowerOfTwoAccepted` | webui/generator.py:470-472 | the code checks only evenness: `6x6`, `0x0` and `-2x-2` are accepted |
| `Validation.EvennessReportedBeforeSquareness` | webui/generator.py:470-476 | `3x4` gets the evenness message rather than the squareness one, and the odd square `2047x2047` is refused |
| `Validation.CoordinatesNotRangeChecked` | webui/generator.py:73 | a latitude of 91 is accepted: there is no range check |
| `PublicLimits.GenerateButtonDisabled` | webui/generator.py:397-400 | the Generate button is disabled iff the server is public and the queue holds at least `QUEUE_LIMIT` = 2 sessions |
| `PublicLimits.IsDisabledOnPublic` | webui/generator.py:142-155 | a field is disabled iff the server is public and the field is `resize_factor` or `dissolve` |
| `PublicLimits.LimitOnPublic` | webui/generator.py:157-172 | off the public server the settings come back unchanged; on it `BackgroundSettings.resize_factor` becomes 8 and `TextureSettings.dissolve` becomes false, every other category and field is unchanged, and a missing category raises a `KeyError` (background checked first) |
| `PublicLimits.LimitTouchesOnlyDisabledFields` | webui/generator.py:142-172 | every field `limit_on_public` adds or changes is one that `is_disabled_on_public` reports as disabled |
| `PublicLimits.LimitOnPublicIdempotent` | webui/generator.py:169-171 | limiting already limited settings changes nothing |
| `Progress.StepSize` | webui/generator.py:547 | the step is the largest value whose `components + 2` multiples fit in 100 |
| `Progress.StageReports` | webui/generator.py:552-554 | the `i`-th stage name is shown with the value `completed + i * step` |
| `Progress.Reports` | webui/generator.py:547-564 | a run shows one report per stage yielded, labelled with that stage, then a previews report if previews were reached, then a packing report if packing was reached |
| `Progress.ReportsValues` | webui/generator.py:547-564 | a run shows `0, step, ..., (k-1)*step` for its `k` stages, then `(k+1)*step` for previews, then `(k+2)*step` for packing, as far as it got |
| `Progress.ReportsNonDecreasing` | webui/generator.py:547-564 | the shown values never decrease |
| `Progress.ReportsIncreasing` | webui/generator.py:547-564 | with a positive step each shown value is larger than the one before |
| `Progress.ReportsWithinHundred` | webui/generator.py:547-564 | when the engine yields no more stages than the game has components, every shown value lies in 0..100 |
| `Progress.PackingIsMaximum` | webui/generator.py:563-564 | the packing value `(k+2)*step` is the last and largest value shown |
| `Orchestrator.SchemaCheck` | webui/generator.py:502-514 | a custom schema is refused iff custom schemas are enabled, its text is non-empty and it fails to parse, and then the parser's error is the reason |
| `Orchestrator.Validate` | webui/generator.py:454-537 | the checks run in source order and the first that fails decides the result: coordinates, size parse, evenness, squareness, raw configuration JSON (shown messages), then the public-limits `KeyError` and the settings parser's error (escaping), then texture and tree schema (shown messages), then engine construction (escaping); a request is accepted iff every check passes, and then the validated side is returned |
| `Orchestrator.Drive` | webui/generator.py:546-581 | the run succeeds iff the engine does not raise, and then sets `generated` and `download_path` to the packed archive; a caught exception leaves both unchanged and shows a message embedding the error text |
| `Orchestrator.QueueAndGenerate` | webui/generator.py:539-584 | after validation, the session is enqueued iff the server is public; once the `try` is entered it is enqueued once, first, and released once, last, with no other queue call (for this or any other session) in between; a failure of the wait loop escapes after the enqueue and makes no further queue call |
| `Orchestrator.GenerateMap` | webui/generator.py:450-584 | every validation failure returns before anything is queued or changed; the session is enqueued iff the server is public and validation passed; a generation succeeds iff validation and the wait pass and the engine does not raise, and only then are `generated` and `download_path` set, to the engine's archive; once the `try` is entered the slot is taken once, first, and released once, last, by the `finally`, with no other queue call in between, while a failure of the wait loop escapes with the slot still taken |
| `Orchestrator.RunShowsProgress` | webui/generator.py:539-564 | a run that enters the `try` shows all queue positions that were yielded (public server only), then exactly the progress values of the stages and finishing steps it reached; every queue position is shown before every progress value |
| `Orchestrator.RunProgressMonotone` | webui/generator.py:547-564 | the progress values a whole run shows never decrease |
| `Orchestrator.RunProgressWithinHundred` | webui/generator.py:547-564 | when the engine yields no more stages than the game has components, every progress value a run shows lies in 0..100 |
| `Page.DownloadBlock` | webui/generator.py:408-423 | when `generated` is set and a path exists, that archive is offered and scheduled for deletion and the flag is cleared; without a path the block raises; when the flag is clear nothing happens |
| `Page.LeftColumnAsWritten` | webui/generator.py:314-323 | off the public server the page behaves as `Page.LeftColumn`; on it the sidebar reads the unassigned `enable_debug` and raises, so `generate_map` never runs and the `generated` flag is left as it was |
| `Page.PublicPageNeverGenerates` | webui/generator.py:319-321 | on a public server a pressed, enabled Generate button runs `generate_map` in the intended page but not in the page as written, which raises `UnboundLocalError` first |
| `Page.LeftColumn` | webui/generator.py:396-423 | the page with `enable_debug` defaulting to false: `generate_map` runs, on the carried flag and a fresh `download_path`, iff the button is pressed and enabled; starting from a cleared flag, deletion is scheduled iff the button was pressed, validation and the wait passed and the engine did not raise, for the engine's archive, and the flag ends cleared; the download block offers exactly what it schedules, and only after a successful generation or with a carried flag; an exception from `generate_map` ends the page before the download block, with the flag unchanged and nothing offered |
| `Page.ReplayDeletesOncePerSuccess` | webui/generator.py:408-423 | over any sequence of script runs of a new session, every run is the page run from a cleared flag and ends with the flag cleared, offers exactly what it schedules, and deletion is scheduled exactly in the runs whose generation succeeded, once each, for that run's archive |

## Left out

- Streamlit rendering: columns, widgets, expanders, status containers, the progress bar's own behaviour (including the initial `st.progress(0)`, which is not counted as a report, and its refusal of values above 100; see the `Orchestrator.Drive` line below), `map_preview`, `show_preview` and `_show_version`. A failure while showing previews is one of the engine faults.
- The sidebar's logger choice (lines 320-323) and the custom-OSM checkbox are UI. The unbound `enable_debug` read is listed under Findings.
- `get_settings` and `_create_widget`: widget construction; the form's settings are an input.
- File I/O: `os.makedirs` (line 483, before the JSON checks), the uploaded OSM file, the schema file reads, and opening the archive for download. Opening is assumed to succeed whenever a path is set.
- `config.remove_with_delay_without_blocking` is a timer in another module; only the decision to call it, and with which path, is modelled.
- The queuing module (`add_to_queue`, `wait_in_queue`, `remove_from_queue`, `get_queue_length`) is not part of this model. Its calls are logged and its results are inputs. No FIFO, rank or thread-safety property is stated.
- Floating point: coordinates parse to reals through an abstract parser, and `shorten_coordinate` is not modelled. The session name, which embeds a timestamp, is an input.
- `perf_counter` and the elapsed-time message: `Succeeded` carries only the archive path.
- `mfs.Game.from_code` (line 452) is assumed to succeed. The settings parser and the `Map` constructor appear only as "raises with this text or not".
- Python's `int()`, `float()` and `json.loads` are function-valued parameters, so their accepted syntax (signs, whitespace, underscores) is not modelled.
- Raw configuration JSON whose top level or categories are not objects cannot be represented. The `AttributeError` (top level a string, number, boolean or null, at `settings_json.copy()`, line 169) or `TypeError` (top level a list, or a category that is not an object) that `limit_on_public` would raise on it on the public server is therefore not modelled.
- `limit_on_public` copies only the outer dictionary, so on the public server the caller's nested dictionaries change as well. The model describes only the returned value.
- `Progress.StepSize` computes `100 div (n+2)` exactly. Python's `int(100 / (n + 2))` divides in floating point first, and this agrees for every realistic component count.
- `Text.SnakeToHuman`: the case mapping is ASCII only. Python's `str.capitalize` also maps non-ASCII letters, and it title-cases rather than upper-cases the first character.
- `Orchestrator.Drive`: Streamlit's `progress_bar.progress` is not modelled. When the engine yields more stages than the game has components, values above 100 reach it (`Progress.ReportsWithinHundred` needs that bound). Streamlit refuses such a value by raising, and the `except Exception` at line 577 would turn the run into a failure, while `Drive` reports it as a success.

## Findings

| source | as written | input that shows it | evidently intended | confidence | as-written member | corrected member |
|---|---|---|---|---|---|---|
| webui/generator.py:319-321 | `enable_debug` is assigned only when the server is not public, yet it is read unconditionally, so on a public server the page raises `UnboundLocalError` before the Generate button is drawn | a public server whose user presses an enabled Generate button | `enable_debug` defaults to false on a public server, so the page goes on to draw the button and run `generate_map` | high; not executed | `Page.LeftColumnAsWritten` (with `Page.PublicPageNeverGenerates`) | `Page.LeftColumn` (with `Page.ReplayDeletesOncePerSuccess`) |
