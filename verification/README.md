# Jarvis digital suite and voice loop, modelled in Dafny

This project models the deterministic logic of the Jarvis assistant. It covers four pieces.

- **Morning briefing.**
  - How WMO weather codes are described.
  - How the include-flags of `get_briefing` select sections.
  - How `format_briefing_for_model` renders a briefing record as ordered text lines.
- **Calendar shaping.**
  - Normalisation of Google Calendar items into `{id, summary, start, end}`.
  - The record update done by `reschedule_event`.
  - The schedule speech, including the `HH:MM` taken after the first `T`.
- **System operations.**
  - The battery string and the status sentence.
  - Top-N process selection: filter, stable descending sort, Python slice.
  - Killing processes by case-insensitive name substring or by pid, with the messages each returns.
- **Skills and the voice cycle.**
  - The `add_task` and `open_daily_stack` skills and their registry.
  - The `main` loop: a step function over the commands captured after each wake word.

Every measurement, fetch and library call becomes an input value. Whatever an external call could do (return or raise) is an `Outcome`. The Todoist client and the language model are function-valued oracles. Numbers other than process CPU are opaque, pre-rendered strings.

Files:

- `wrappers.dfy`: `Option`, `Outcome`, and Python truthiness of an optional string.
- `strings.dfy`: the Python string operations the core uses.
  - `sep.join`, `str.split` with one separator character, and `in` on strings.
  - ASCII `lower()` and decimal rendering of naturals.
  - Round-trip lemmas for these.
- `system_ops.dfy`, `productivity.dfy`, `briefing.dfy`, `skills.dfy`: one module per source file.
- `voice_loop.dfy`: `main.py` together with `Brain.process_input`.

## Model

| member | source | states |
|---|---|---|
| Briefing.WeatherDesc | backend/digital_suite/briefing.py:43-63 | Every integer code gets a description, and it is always one of the ten fixed descriptions. |
| Briefing.CodeGroupsDisjoint | backend/digital_suite/briefing.py:45-62 | No code is listed in two of the nine code groups. |
| Briefing.WeatherDescOfGroupAt | backend/digital_suite/briefing.py:45-62 | A code listed in a group gets exactly that group's description. |
| Briefing.WeatherDescOfGroup | backend/digital_suite/briefing.py:45-62 | The same fact stated for a group value rather than a position in the table. |
| Briefing.WeatherDescUnlisted | backend/digital_suite/briefing.py:63 | A code is described as "variable" exactly when no group lists it. |
| Briefing.FirstMatchOfListedGroups | backend/digital_suite/briefing.py:45-63 | Testing the groups in their listed order agrees with the description function. |
| Briefing.WeatherDescAnyOrder | backend/digital_suite/briefing.py:45-63 | Testing the groups in any permutation of their order gives the same description, so check order does not matter. |
| Briefing.GetBriefing | backend/digital_suite/briefing.py:132-163 | All six keys are always present, and a key whose flag is off stays None. If the system section is included, the spoken system text is the rendering of the stored status. A raising calendar leaves only `calendar_speech` None. |
| Briefing.BriefingSectionsFollowFlags | backend/digital_suite/briefing.py:141-161 | Weather and system render exactly when included. Headlines and stocks render when included and non-empty. The calendar renders when included and its fetch and formatting succeeded. |
| Briefing.WeatherLine | backend/digital_suite/briefing.py:170-177 | Weather line: the "Unable to fetch (…)" form for an error record, otherwise temperature and description, the description defaulting to "unknown". |
| Briefing.HeadlineLines | backend/digital_suite/briefing.py:185-188 | The headlines header, then at most three titles numbered 1, 2, 3 in input order; a missing title renders as "". |
| Briefing.StockLine | backend/digital_suite/briefing.py:190-197 | Stock line: one line per stock. It is the error form for a failed fetch. Otherwise it is the price, defaulting to "?", with the change suffix present exactly when a change was computed. |
| Briefing.SectionLines | backend/digital_suite/briefing.py:170-197 | A section contributes lines exactly when its field is truthy. Weather gives its one weather line, the calendar its speech, and the system "System: " plus its speech. Headlines give the headline lines. Stocks give one line per stock, the i-th being that stock's line. |
| Briefing.CalendarSpeech | backend/digital_suite/briefing.py:149-155 | A raising schedule fetch leaves the calendar speech None. Otherwise it is the schedule's speech, which is never the empty string. |
| Briefing.DefaultBriefingSections | backend/digital_suite/briefing.py:118-125 | With the default flags, weather, system and calendar are included and headlines and stocks are left None. |
| Briefing.UnconfiguredCalendarSpeech | backend/digital_suite/briefing.py:149-155 | Without calendar credentials, an included calendar is spoken as "Calendar: " plus the not-configured error. |
| Briefing.PartsOfOrdered | backend/digital_suite/briefing.py:168-197 | Parts built over a strictly ranked list of sections come out in rank order. |
| Briefing.PartsOfPresent | backend/digital_suite/briefing.py:168-197 | A listed section has a part exactly when it contributes. |
| Briefing.PartsOfTexts | backend/digital_suite/briefing.py:168-197 | The texts of the parts built over a list of sections are those sections' lines, concatenated in list order. |
| Briefing.Parts | backend/digital_suite/briefing.py:168-197 | The parts follow the fixed order weather, calendar, system, headlines, stocks, and a section has a part exactly when it contributes. Their texts are the weather lines, then the calendar, system, headline and stock lines, in that order. |
| Briefing.FormatBriefing | backend/digital_suite/briefing.py:199 | With no contributing section the text is "No briefing data available."; otherwise it is the part texts joined by line breaks. |
| Briefing.NothingIncludedRendersNoData | backend/digital_suite/briefing.py:132-199 | A briefing built with every flag off renders as the no-data sentence. |
| Productivity.PickTime | backend/digital_suite/productivity.py:86-87 | `dateTime` is used when truthy; otherwise `date`; and None when the object is absent. |
| Productivity.NormalizeEvents | backend/digital_suite/productivity.py:84-93 | One event per item in item order, keeping the id. The summary defaults to "(No title)", and start and end are picked as above. |
| Productivity.GetTodaySchedule | backend/digital_suite/productivity.py:58-96 | Without credentials: no events and the not-configured error, whatever the API would say. An API failure gives no events and its message. Success gives no error and one event per item, in order, with the item's id, its summary or "(No title)", and its picked start and end. |
| Productivity.ShortTime | backend/digital_suite/productivity.py:133-137 | A start without "T" is unchanged. Otherwise the result has at most five characters and contains no "T". |
| Productivity.ShortTimeAfterFirstT | backend/digital_suite/productivity.py:135 | The shortened time is a prefix of the text after the first "T". It is five characters long unless it stops at the end of the string or at the next "T". |
| Productivity.ScheduleLines | backend/digital_suite/productivity.py:128-139 | The header, then exactly one "  - <summary> at <time>" line per event, in order. |
| Productivity.FormatSchedule | backend/digital_suite/productivity.py:121-140 | An error wins over any events. No events gives the no-events sentence. Otherwise the text starts with the header line. It is defined exactly when every event has a start; a missing start is the TypeError. |
| Productivity.ScheduleSpeechLines | backend/digital_suite/productivity.py:128-140 | When no summary or start contains a line break, splitting the speech at line breaks gives back the header and one line per event. |
| Productivity.KeptZone | backend/digital_suite/productivity.py:112-114 | The time zone of the old start or end is kept when present; otherwise it is "UTC". |
| Productivity.Rescheduled | backend/digital_suite/productivity.py:111-114 | The start becomes the new date-time in the old time zone, defaulting to "UTC". The end is replaced only when a truthy new end is given. Every other field, and every time zone, is kept. |
| Productivity.RescheduledIdempotent | backend/digital_suite/productivity.py:111-114 | Applying the same reschedule twice gives the same record as applying it once. |
| Productivity.RescheduleEvent | backend/digital_suite/productivity.py:99-118 | Without credentials: failure with "Google Calendar not configured." and nothing sent. A failed fetch sends nothing. Otherwise the updated record is sent, and success holds exactly when the update returned. Success holds exactly when there is no error. |
| SystemOps.BatteryString | backend/digital_suite/system_ops.py:27-39 | The string is "No battery (desktop)", "Unknown" on a failed probe, or the percentage followed by the plugged or on-battery suffix; it is never empty. |
| SystemOps.BatteryPluggedIff | backend/digital_suite/system_ops.py:32-37 | The string ends in " (plugged in)" exactly when a battery was read while plugged in. |
| SystemOps.GpuNote | backend/digital_suite/system_ops.py:46-55 | A note is written exactly when nvidia-smi gave a reading or could not be run, and every written note passes the "temp" filter of the speech. |
| SystemOps.GetSystemStatus | backend/digital_suite/system_ops.py:10-57 | The four measurements are stored as given. The battery field is the battery string. On a reading the temperature is stored and the note is "GPU temp: " plus the reading plus "°C". A failed probe gives the not-available note and no temperature. An empty reading leaves both None. |
| SystemOps.StatusParts | backend/digital_suite/system_ops.py:62-69 | CPU part first and RAM part second. The battery part is present exactly when the battery is truthy, and the GPU note is last, present exactly when it mentions "temp" in any case. |
| SystemOps.FormatStatus | backend/digital_suite/system_ops.py:60-70 | The sentence is the status parts joined by ". ", so it always starts with the CPU part, then ". ", then the RAM part. |
| SystemOps.StatusSentenceMentions | backend/digital_suite/system_ops.py:62-70 | The sentence contains "Battery: " and the battery text whenever that text is truthy, and it contains the GPU note whenever the note mentions "temp". |
| SystemOps.TempNoteSpoken | backend/digital_suite/system_ops.py:68 | A note whose characters 4 to 7 spell "temp" passes the GPU filter. |
| SystemOps.MeasuredStatusSpeech | backend/digital_suite/system_ops.py:10-70 | For a measured status the sentence has three parts when nvidia-smi gave no reading and four otherwise (a reading, or the not-available note of a failed probe), and the third is "Battery: " plus the battery string. |
| SystemOps.EntryName | backend/digital_suite/system_ops.py:83 | A truthy name is kept; a missing or empty name becomes "unknown". |
| SystemOps.Collect | backend/digital_suite/system_ops.py:75-87 | Only processes with a CPU reading above zero are kept, each with a non-empty name, "unknown" when missing. Vanished or denied processes are skipped. |
| SystemOps.CollectOne | backend/digital_suite/system_ops.py:78-87 | A single sample yields its pid, name and CPU reading when the reading is above zero, and nothing when the process vanished or reported no or zero CPU. |
| SystemOps.CollectAppend | backend/digital_suite/system_ops.py:75-87 | Collecting a concatenation collects each part in turn, so with the single-sample case the whole list is determined and input order is kept. |
| SystemOps.SortDesc | backend/digital_suite/system_ops.py:88 | The result is sorted by CPU, non-increasing, and is a permutation of the input. |
| SystemOps.SortDescStable | backend/digital_suite/system_ops.py:88 | The sort is stable: the entries with equal CPU keep their input order. |
| SystemOps.TakePy | backend/digital_suite/system_ops.py:89 | Python slice `s[:n]` for any integer n: a prefix of the input whose length follows the rule for negative n. |
| SystemOps.TopProcesses | backend/digital_suite/system_ops.py:73-89 | The result is a prefix of the stable sort: n entries when that many were collected, and for a negative n all but the last -n. No collected process left out is busier than one kept. The result is sorted, and every entry is busy and named. |
| SystemOps.TopProcessesDefault | backend/digital_suite/system_ops.py:73 | Called without n, the ten busiest processes are returned, or all of them when fewer were collected. |
| SystemOps.Targets | backend/digital_suite/system_ops.py:100 | A process is targeted exactly when the lower-cased substring occurs at some position of its lower-cased name, a missing name counting as "". |
| SystemOps.KilledLabels | backend/digital_suite/system_ops.py:97-103 | At most one label per process. The contents are fixed by the three lemmas below. |
| SystemOps.KilledLabelsEmpty | backend/digital_suite/system_ops.py:97-106 | The killed list is empty exactly when no process was both targeted and terminated. |
| SystemOps.KilledLabelsSound | backend/digital_suite/system_ops.py:99-105 | Every listed label belongs to a targeted process whose termination went through. Processes that raised never appear. |
| SystemOps.KilledLabelsAppend | backend/digital_suite/system_ops.py:98-103 | Labels of a concatenated process list are the labels of each part in order, so iteration order is kept. |
| SystemOps.KillByName | backend/digital_suite/system_ops.py:92-108 | Success exactly when some process was killed. The message is then "Terminated: " and the labels joined by ", "; otherwise it is the "No process matching" message. |
| SystemOps.EmptySubstringTargetsAll | backend/digital_suite/system_ops.py:100 | The empty substring targets every process, named or not. |
| SystemOps.TargetsIgnoresCase | backend/digital_suite/system_ops.py:100 | Targeting depends only on the lower-cased substring and name. |
| SystemOps.KillByPid | backend/digital_suite/system_ops.py:111-120 | The three outcomes: termination with the process name, "does not exist" and "Access denied"; only the first succeeds. |
| SystemOps.KillByPidMentionsPid | backend/digital_suite/system_ops.py:116-120 | Whichever way the kill goes, the reply names the pid it was given, in decimal. |
| Skills.OpenDailyStack | skills.py:10-29 | The reply is always the dashboard sentence. The three fixed URLs are opened first, and the Notion web page is added exactly when launching the app raised. |
| Skills.AddTask | skills.py:32-46 | Without a key: the missing-key reply and no request. Otherwise exactly one request; success is confirmed with content and due phrase, and a raised error is reported rather than raised. |
| Skills.AddTaskDueToday | skills.py:32 | The due phrase defaults to "today". |
| Skills.AddTaskReplyMentions | skills.py:38-44 | The success reply contains the content and the due phrase, and the missing-key reply contains "missing". |
| Skills.Lookup | skills.py:49-52 | The registry finds a skill exactly for "open_daily_stack" and "add_task", under the name asked for. |
| Skills.RegistryRoundTrip | skills.py:49-52 | Each skill is found under its own name, and these are the only keys. |
| VoiceLoop.ProcessInput | brain.py:30-36 | The reasoner's reply is returned as it is, and an exception is turned into "I encountered an error processing that: …". |
| VoiceLoop.Step | main.py:16-29 | A cycle says "Yes?" and only then captures the command. A truthy command is then sent to the brain once, the brain's reply is spoken, and the command joins the chat history. Otherwise the fallback is spoken and the state is unchanged. |
| VoiceLoop.StepPromptsBeforeListening | main.py:17-20 | "Yes?" is the first action of every cycle, the capture comes right after it, and there is no other capture in the cycle. |
| VoiceLoop.StepEffects | main.py:16-29 | Seen through speech and consultation, a cycle speaks exactly "Yes?" and the answer. It consults exactly the truthy command. |
| VoiceLoop.Run | main.py:12-32 | The run opens by saying "Systems online. Ready.". The brain is handed exactly the truthy commands, in order. After the greeting, each cycle says "Yes?" and then the answer to its command. |
| VoiceLoop.RunFromConsults | main.py:14-32 | Over any trace, the brain receives exactly the truthy commands, each once and in order. Its history grows by exactly those commands. |
| VoiceLoop.RunFromSpeaks | main.py:14-32 | Each cycle speaks exactly two utterances: "Yes?" and then the answer to that cycle's command. The answer is computed from every command heard before it. |
| VoiceLoop.RunGreetsOnce | main.py:12-32 | The greeting utterance ("Systems online. Ready.") is spoken first and never again as the greeting; a reply may still carry the same words. Each wake word adds two utterances. |
| VoiceLoop.RunFromExtends | main.py:14-32 | While every command capture returns, the loop goes on: after any trace, one more wake word runs one more cycle from the state left behind. |
| Strings.Join | backend/digital_suite/system_ops.py:70 | `sep.join`: a non-empty join starts with the first part, and with the first part and the separator when there are two or more. |
| Strings.JoinContainsPart | backend/digital_suite/system_ops.py:70 | Every part of a join occurs in the joined string. |
| Strings.Split | backend/digital_suite/productivity.py:135 | `str.split` with one separator character: at least one piece, no piece contains the separator, and joining the pieces with it gives back the string. |
| Strings.Lower | backend/digital_suite/system_ops.py:100 | Same length, each character lower-cased on its own. |
| Strings.SplitJoin | backend/digital_suite/productivity.py:135 | Splitting the join of pieces without the separator gives back the pieces, which makes `str.split` the inverse of `join`. |
| Strings.ContainsIff | backend/digital_suite/system_ops.py:100 | Python's `in` on strings holds exactly when the needle occurs at some index. |
| Strings.ParseNatToString | backend/digital_suite/system_ops.py:103 | The decimal rendering of a pid parses back to the pid. |

## Left out

- `senses.py` (microphone, wake-word model, speech recognition, text to speech) is not part of this model. The wake-word detector only ever returns once it has heard the wake word, so a cycle's only input is the captured command. Spoken text and each capture are recorded as actions, in the order the loop performs them.
- `brain.py`: the Gemini SDK and automatic function calling are left out. The chat is an oracle from (commands sent so far, new command) to a reply or an exception.
- `backend/digital_suite/research.py`, `setup.py`, `repair.py`, `backend/main.py` and `backend/digital_suite/__init__.py` are not part of this model. `config.py` is a parameter: the optional Todoist key.
- Network fetches `get_weather`, `get_news_rss` and `get_stocks`, and their float arithmetic (°C to °F, percentage change, `round`), are left out. Their results arrive as records with pre-rendered numbers.
- Briefing.StockLine: the change is taken pre-rendered with sign and one decimal (`{pct:+.1f}`).
- Briefing.WeatherLine: takes a non-error weather record as always present. The empty dict, which Python would treat as falsy, is never produced by the fetcher.
- The OAuth flow in `_get_credentials`, token files and the `utcnow` day window are left out. Whether credentials exist is a boolean input.
- The psutil measurements, `terminate()` side effects and the `nvidia-smi` subprocess are left out. Process snapshots and probe results are inputs. The stripping and first-line extraction of the `nvidia-smi` output are not modelled: a reading arrives already extracted.
- SystemOps.Collect: a process CPU reading is an integer in tenths of a percent. The filter `cpu > 0` is applied to that rounded value, whereas the source filters the unrounded float.
- SystemOps.Targets: `str.lower()` is modelled for ASCII letters only. Other characters are kept unchanged.
- SystemOps.KillByPid: the pid is a natural number. A negative pid makes psutil raise a `ValueError` that the source does not catch.
- Skills.OpenDailyStack: the source launches Notion with `start` or `open` depending on `os.name`. The model keeps only whether that launch raised (`notionLaunch`), not which command ran. The results of `webbrowser.open` are ignored by the source and are left out.
- An exception from command capture ends `main`: `recognize_google` can raise `sr.RequestError`, which `senses.py` does not catch (only "unknown value" and "wait timeout" become None). So can an exception from `speak`. The model's traces only hold captures that returned, so this exit is not modelled.
- `time.sleep` and all real-time, blocking and concurrent behaviour are left out. The infinite loop is modelled by its finite prefixes (`VoiceLoop.RunFrom` over a finite trace) together with `VoiceLoop.RunFromExtends`.
- Productivity.NormalizeEvents: a `summary` key present with the value null is treated like an absent key and gets "(No title)". Python would keep `None` and speak it as "None".
- Productivity.FormatSchedule: an event without a start makes `"T" in None` raise a TypeError. This is modelled as `None`, and `get_briefing` turns it into `calendar_speech` None.
- Briefing.FormatBriefing: states the no-data iff on the parts. The calendar speech could itself be the sentence "No briefing data available.", so the text alone does not determine whether any section contributed.
