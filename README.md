# HapsControl command sequencing, in Dafny

HapsControl is a Tk window from which an operator resets the boards of a
HAPS prototyping system and loads a configured project onto them. It does
both through `confpro` run on a remote host over SSH. This project models
the engine behind the two buttons. It verifies in Dafny 4.11.

What is modelled:

- **Configuration** (`config.dfy`). The configuration is a map of sections to
  option maps. The model covers:
  - the defaults written on first start, in revision 6 and revision 7, which
    differ only in `default_index`;
  - the repair `fix_config` applies to a file read from disk;
  - the two lookup helpers, `get_config_value` and `get_int_config_value`.

  `fix_config` is an imperative method on a `ConfigStore` object. It is
  proved against the pure function `Repaired`, and the repair's properties
  are proved about `Repaired`.
- **Text helpers** (`text.dfy`, `numbers.dfy`). These model the Python
  built-ins the engine relies on: `str.strip`, `str.split`, `str.join`,
  `str.replace`, `int()` on stripped text, and `str()` of an integer.
- **One remote command** (`remote.dfy`). The SSH layer is an oracle that
  reports how each attempt ended: no connection, an exit status, or an SSH
  error. On top of it the model covers the success rule of
  `execute_remote_command`, the command line `"<confpro>" <cmd>`, and the
  substitution of `{bitfile_path}`.
- **The loop** (`sequencer.dfy`). The model covers the loop shared by reset
  and load:
  - the commands run strictly in order;
  - after a failure the operator is asked whether to go on, and a "no" ends
    the loop;
  - a delay of `command_delay` one-second ticks separates two commands, with
    none after the last.

  `RunSequence` is the loop as written. It is proved equal to the recursive
  specification `Steps`, and the properties are proved about `Steps`.
- **The operations** (`operations.dfy`). `perform_reset` and `perform_load`
  are methods of the `Controller` class, which holds the configuration, the
  artifact path shown in the window, the button state and a trace of events.
  Each method is proved against a function (`ResetRun`, `LoadRun`).
  `perform_load` adds:
  - the fallback to the preset that `default_index` names;
  - the write of the artifact path to the info file.

  The file also models start-up: load or create the configuration, then
  build the window with the preset path.

The environment is a `World` value. It answers four questions: the SSH
outcome of command n, the operator's answer after command n failed, whether
a file exists, and whether the info file can be written. `ValidWorld` says
that the empty path does not exist, as `os.path.exists('')` is false.
Time is modelled as `Tick` events, and the SSH, dialog and file effects as
the `Run`, `Closed`, `Ask` and `SaveInfo` events.

## Model

| member | source | states |
|---|---|---|
| Config.GetConfigValue | haps_control_gui_v7.py:172-177 | The stored value when the section and the option exist, the caller's default otherwise |
| Config.GetIntConfigValue | haps_control_gui_v7.py:153-160 | A missing option gives the default; a present one gives `int(value.strip())`, or the default when that is no integer |
| Operations.GetIntReadsPrinted | haps_control_gui_v7.py:153-160 | An option holding `str(n)` reads back as `n`, whatever the default |
| Numbers.IntToStringRoundTrip | haps_control_gui_v7.py:155-157 | `int(str(n)) == n` for every integer, so the default passed as `str(default)` reads back as itself |
| Numbers.ParseInt | haps_control_gui_v7.py:157 | `int()` accepts an optional sign followed by well-formed digits (single underscores between digits), and nothing else |
| Text.Strip | haps_control_gui_v7.py:157 | `strip()` is a slice of the input with only whitespace before and after it; it is empty exactly on all-whitespace text and otherwise neither starts nor ends with whitespace |
| Text.StripTrims | haps_control_gui_v7.py:574 | Stripping text wrapped in whitespace gives back the text, when it neither starts nor ends with whitespace |
| Text.StripUnchanged | haps_control_gui_v7.py:574 | Text without whitespace at either end is left unchanged by `strip()` |
| Text.SplitCommands | haps_control_gui_v7.py:574 | Every command the list comprehension yields is non-empty, has no whitespace at either end and holds no `;` |
| Text.SplitCommandsEmptyIff | haps_control_gui_v7.py:574-579 | The comprehension yields no command exactly when the value holds only `;` and whitespace |
| Text.SplitCommandsRoundTrip | haps_control_gui_v7.py:574 | A non-empty list of clean commands joined with `;` splits back into the same list |
| Text.SplitCommandsIdempotent | haps_control_gui_v7.py:574 | Joining the commands with `;` and splitting again gives the same commands |
| Text.SplitCommandsOfSegments | haps_control_gui_v7.py:574 | The commands of a `;`-joined value are its segments, each stripped, the blank ones dropped, in order |
| Text.SplitCommandsStrips | haps_control_gui_v7.py:574 | `x;y <ws>;<ws> z;` names exactly the commands `x`, `y`, `z`: surrounding whitespace and the empty last segment are dropped |
| Text.SplitCommandsExample | haps_control_gui_v7.py:574 | `"a;b ; c;"` names the commands `a`, `b`, `c` |
| Text.SplitJoinRoundTrip | haps_control_gui_v7.py:574 | `sep.join(s.split(sep)) == s` |
| Text.ReplaceIsJoinOfSplit | haps_control_gui_v7.py:674 | `s.replace(old, new) == new.join(s.split(old))` |
| Config.FixConfig | haps_control_gui_v7.py:106-151 | The store becomes `Repaired` of the old store; the two flags report exactly whether the timing option or a command option needed filling in |
| Config.FillInInPlace | haps_control_gui_v7.py:109-115 | Creates the section if missing, sets the option only when it is missing or empty, and reports whether it did |
| Config.FillAllInPlace | haps_control_gui_v7.py:128-133 | The loop over the default reset commands fills each unset one and reports whether any was unset |
| Config.RepairedAt | haps_control_gui_v7.py:106-144 | After the repair, each option covered by the repair holds its default if it was unset, and every other option is unchanged |
| Config.RepairedHasDefaults | haps_control_gui_v7.py:112-141 | After the repair, the command delay, the three reset lists and the default load list are all present and non-empty |
| Config.RepairedKeepsSettings | haps_control_gui_v7.py:112-141 | The repair never changes an option that was set, nor any option it does not cover |
| Config.RepairChangesIffReported | haps_control_gui_v7.py:110-146 | The repair changes the store exactly when it reports an update |
| Config.RepairIdempotent | haps_control_gui_v7.py:106-151 | Repairing a repaired store changes nothing |
| Config.DefaultConfigIsRepaired | haps_control_gui_v7.py:63-104 | The repair leaves the default configuration of either revision unchanged |
| Operations.DefaultResetLists | haps_control_gui_v7.py:74-81 | The default `haps` option names the four pulses A, D, B, C in order; `haps_master` names A, D and `haps_slave` names B, C |
| Operations.DefaultLoadCommands | haps_control_gui_v7.py:84-86 | The default load option is a single command |
| Operations.DefaultFallback | haps_control_gui_v7.py:92-98 | The fallback of a fresh configuration is the first preset in revision 7, and the third in revision 6 (whose `default_index` is `'3'`, `haps_control_gui_v6.py:74`) |
| Operations.FallbackFollowsIndex | haps_control_gui_v7.py:634-635 | When `default_index` holds `str(n)`, the fallback is preset `path<n>` |
| Operations.FallbackWithoutIndex | haps_control_gui_v7.py:634-635 | Without a `default_index` option, or when it is no integer, the fallback is `path3` |
| Operations.LoadOrCreateConfig | haps_control_gui_v7.py:52-104 | A configuration file that exists is loaded and repaired; otherwise the store holds the revision's defaults |
| Operations.Start | haps_control_gui_v7.py:11-50 | A new window holds the loaded or default configuration, shows the preset that `default_index` names (`path3` when it is unreadable, as intended; see Findings), has its buttons enabled and has done nothing yet |
| Operations.Controller.constructor | haps_control_gui_v7.py:253-256 | The path field starts at the fallback preset (the intended behaviour; see Findings) |
| Operations.UnreadableIndexCrashesStartup | haps_control_gui_v7.py:253 | As written, a present `default_index` that holds no integer ends start-up with no window, where the value meant is `path3` |
| Operations.StartupCrashExample | haps_control_gui_v7.py:253 | `default_index = abc` is unreadable: as written no window, as meant the third preset |
| Remote.Execute | haps_control_gui_v7.py:507-553 | A command succeeds exactly when a connection was made and the command exited with status 0; a connection that was made is closed again |
| Remote.FullCommand | haps_control_gui_v7.py:587 | The command line is the tool path in double quotes, a space, then the command; a missing tool path is written `None` |
| Remote.FullCommandInjective | haps_control_gui_v7.py:587 | Distinct commands give distinct command lines |
| Remote.RenderWithoutPlaceholder | haps_control_gui_v7.py:674 | A load command without `{bitfile_path}` is sent as it is |
| Remote.RenderNamesPath | haps_control_gui_v7.py:674 | A load command naming `{bitfile_path}` names the artifact path once rendered |
| Remote.RenderReplacesEvery | haps_control_gui_v7.py:674 | Rendering cuts the command at every placeholder and joins the pieces with the path |
| Remote.RenderCanLeavePlaceholder | haps_control_gui_v7.py:674 | Rendering need not remove every placeholder: a path that is itself `{bitfile_path}` puts one back |
| Sequencer.RunSequence | haps_control_gui_v7.py:582-601 | The loop's result and events are those of the specification `Steps`; it reports success exactly when every command that ran succeeded, and success implies that every command ran |
| Sequencer.WaitRound | haps_control_gui_v7.py:597-601 | The delay round is exactly `delay` ticks, none when `delay` is not positive |
| Sequencer.StopIsFirstAbort | haps_control_gui_v7.py:590-595 | The loop stops right after the first failed command the operator did not want to continue past, or after the last command |
| Sequencer.StepsSucceedIff | haps_control_gui_v7.py:582-595 | `all_success` holds exactly when every command that ran succeeded, and then every command ran |
| Sequencer.StepsRunPrefix | haps_control_gui_v7.py:582-595 | The commands sent are exactly the first `Stop` lines, each once and in order |
| Sequencer.StepsAskOnFailure | haps_control_gui_v7.py:590-595 | The operator is asked once about each failed command that ran, and never about a command that succeeded or did not run |
| Sequencer.StepsTickCount | haps_control_gui_v7.py:597-601 | With a positive delay, the loop waits `(k - 1) * delay` ticks when `k` commands ran; with no positive delay it never waits |
| Sequencer.StepsEndWithoutWait | haps_control_gui_v7.py:597-601 | The loop never ends on a delay: nothing waits after the last command or after an abort |
| Operations.RunCommandText | haps_control_gui_v7.py:564-601 | The shared part of both operations, as run, yields the result and events of `CommandsRun` |
| Operations.CommandsRunRejects | haps_control_gui_v7.py:568-579 | An empty option gives "not configured"; an option of only `;` and whitespace gives "no valid commands"; in either case nothing is sent |
| Operations.CommandsRunSends | haps_control_gui_v7.py:581-601 | When commands run, the lines sent are the first `Stop` command lines in order |
| Operations.CommandsRunSucceeds | haps_control_gui_v7.py:582-595 | The operation reports success exactly when every line sent succeeded |
| Operations.CommandsRunSucceedsAll | haps_control_gui_v7.py:582-595 | An operation reporting success sent every command |
| Operations.CommandsRunPaces | haps_control_gui_v7.py:590-601 | One question per failed line sent, and `(k - 1) * delay` ticks for `k` lines sent |
| Operations.CommandLineContents | haps_control_gui_v7.py:674-677 | A reset line carries the command unchanged after the tool path; a load line names the artifact wherever the command names the placeholder, and is the plain line otherwise |
| Operations.LoadRunOrder | haps_control_gui_v7.py:630-666 | The load stops with nothing sent exactly when both the chosen artifact and the fallback are missing; otherwise it records the path first and then runs the load commands |
| Operations.LoadMissingPresetFails | haps_control_gui_v7.py:630-641 | When the chosen artifact is missing and `default_index` names a preset that is not configured, the fallback is `''`, which does not exist, so the load stops with nothing recorded or sent |
| Operations.LoadNeverUsesEmptyPath | haps_control_gui_v7.py:630-641 | A load that goes ahead never uses the empty path, even when the path field was cleared |
| Operations.LoadSaveFailureHarmless | haps_control_gui_v7.py:644-652 | Whether the info file can be written changes neither the result nor what is sent |
| Operations.Controller.PerformReset | haps_control_gui_v7.py:555-614 | The result and the new events are those of `ResetRun`; the path field is kept and the buttons are enabled again |
| Operations.Controller.PerformLoad | haps_control_gui_v7.py:616-704 | The result and the new events are those of `LoadRun`; the path field shows the path used, the fallback when the chosen one was missing; the buttons are enabled again |

Revision 6 has the same engine. Its `fix_config` is at
`haps_control_gui_v6.py:83-128`, `get_int_config_value` at 130-137,
`get_config_value` at 149-154, `perform_reset` at 455-514 and
`perform_load` at 516-604. The only difference is the default
`default_index`, which `DefaultConfig` takes as the `Revision` parameter.

## Findings

| source | as written | input that shows it | evidently intended | confidence | as-written member | corrected member |
|---|---|---|---|---|---|---|
| haps_control_gui_v7.py:253 | `create_widgets` reads `default_index` with `get_int_config_value` at line 253; its `ValueError` branch logs through `self.log_text` (lines 159, 468), which is only created at line 294, so start-up raises `AttributeError` and no window appears (same in `haps_control_gui_v6.py` at lines 204 and 245) | a configuration file with `default_index = abc` under `[BitFilePaths]` | the warning path returns the default 3, and the window opens at `path3` | high; not executed | Operations.UnreadableIndexCrashesStartup | Operations.FallbackWithoutIndex |

## Left out

- Operations.Start: models start-up as intended. When `default_index` holds no integer it opens the window at `path3`, where the code as written crashes (see Findings, `InitialPathAsWritten`).
- Operations.Controller.constructor: likewise sets the path field to `path3` for an unreadable `default_index`, where the code as written raises before the window exists.

- configparser's interpolation, its `DEFAULT` section and its lower-casing of option names. Sections and options are plain map keys.
- `int()` on non-ASCII digits, and other forms Python accepts. The model reads ASCII digits with an optional sign and single underscores between digits.
- Numbers.ParseInt: has no digit limit. Python 3.11 and later (and the later security releases of 3.7 to 3.10) reject a decimal string of more than 4300 digits with `ValueError`, so such a `command_delay` reads as the default 2 there, and such a `default_index` takes the start-up crash path. The model reads any length.
- The save branch at the end of `fix_config`. It never runs while the file is loaded, because `self.config` is still `None` then.
- Writing the default configuration to disk. The file system is the `Option<Config>` given to `LoadOrCreateConfig`.
- Log lines and status texts.
- The widgets, `browse_bitfile`, the preset combo boxes and `save_all_config`.
- SSH itself: the streaming of stdout and stderr and the exception messages. `Session` says only how an attempt ended.
- Exceptions other than `SSHException` raised while a command runs. They would escape the loop; the model has no such outcome.
- `time.sleep` and the polling of the exit status. Waiting is a `Tick` event per second.
- Buttons disabled while an operation runs: `buttonsEnabled` is false during it and true at its end, and the walk over the widget tree is not modelled.
- Both operations build their command lines before the loop (`CommandLines`) instead of one per iteration. Each line depends only on its own command, so the lines sent are the same.
- Reset and load share one model of the command loop, `CommandsRun`. The source repeats the loop in each.
- `haps_control_gui_v1.py` and `haps_control_gui_v2.py` are not part of this model.
