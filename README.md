# in_time core in Dafny

This project models three parts of the in_time repository and proves properties about them.

- **The time-server client** (`fake_time_server/api.py`):
  - The loose coercions `_to_bool`, `_to_int` and `_to_form_scalar`.
  - `format_time`.
  - The query encoding `_encode_query` and what `urlencode` makes of it.
  - The operations that run fixed decision logic over the server's answer: `get_system_active`, `set_active`, `get_time_allocation`, `split_allocated_evenly`, `deactivate_system`, the offset calls and the list calls.
  - The HTTP exchange is a function `remote` fixed when the client is created. Given every request sent before, it maps a request to the decoded answer or to the failure marker. The client keeps the log `sent` of requests.
- **The command-line tool** (`fake_time_server/time_server.py`):
  - The persisted privileges `CORE_MODE`, `AUTHORIZED_MODE` and `USER` are fields of the class `Cli`.
  - Standard input is the sequence `input` of all its lines together with the count `pos` of lines `input()` has asked for. The state file is its decoded contents.
  - The answer parsers are `compare_input_to_int`, `_yes_no` and `_parse_bool`.
  - `_print_table`'s column widths are computed by a loop.
  - Each command is a method. What it does is also a function of the session, the input, the position in it and the requests sent before: `QueryRun`, `CoreModeRun`, `AuthorizeRun`, `UserRun`, `SetActiveArgRun` and `SplitRun` give its exit code or escaping error, the new session, whether the file is written, the requests it sends and the lines it reads.
  - `main` loads the state and dispatches one command. `CommandRun` is that dispatch.
- **The flip-dot display editor** (`displays/display_tool/display_tool.py`):
  - The class `DisplayEditor` holds the drawing, the screen count, the address, the mouse state and the frame entry's text.
  - `get_buffer` packs the drawing into 4 bytes per screen per display row, least significant bit first.
  - `export_frame` writes the `!FRAME;ADDR=..;01;LEN;<base64>` line.
  - `load_frame` parses such a line and unpacks it bit by bit into a zeroed grid.
  - The other operations are clear, fill, mouse painting, change of screen count and change of address.

The Python library behaviour the core relies on is modelled where a property depends on it:

- `str.strip`, `str.lower`, `str.isdigit`, `int(s, base)`, `str.split` and `str.join` (module `PyText`), and `str`/`repr` of the decoded JSON values (module `Dynamic`), as CPython 3.11 writes them.
- `urlencode`/`quote_plus` with UTF-8 (module `FormEncoding`).
- `b64encode` and the default lenient `b64decode` of RFC 4648 section 4 base64, as CPython 3.11 and later decode it (module `Base64`). Earlier versions treat padding differently.

Two results carry most of the weight:

- `FrameCodec.ExportLoadRoundTrip` together with `DisplayTool.DisplayEditor.LoadFrame`: exporting a drawing and loading the line back with the same screen count restores the drawing and the address. In the unpacking loop a screen's last byte also writes its four padding bits into the first four columns of the next screen. Those cells are written again with their own bits later in the same loop, so the round trip still holds.
- `FrameCodec.UnpackedCell` gives the exact value of every loaded cell for any payload, truncated or not. When a payload ends exactly after some screen's last byte, that byte's padding bits stay in columns 0-3 of the next screen. So "pixels beyond the payload stay 0" holds everywhere except in those four cells. `FrameCodec.TruncatedPayloadLeaks` exhibits this.

Some behaviours of the code are easy to miss. The model keeps each of them:

- **Failure marker.** The client's failure marker is the value `False`, recognised by `resp is False`. A JSON `false` body is that same value, so it reads as failure. `Dynamic.FailureMarker` is `Bool(false)`.
- **User-count challenge.** `cmd_set_user` expects the number of listed users plus one, and 0 when the answer is not a list or a dict.
- **Setting the user.** `cmd_set_user` does not require CORE_MODE.
- **Exit code 0 on failure.** `cmd_get_active` and `cmd_get_allocated_time` return 0 even when the request failed.
- **End of input.** `input()` at the end of input raises out of `input_equals_int` and out of the password prompt. `_yes_no` catches it. The model returns `Raised(EndOfInput)` in those two places.
- **State-file keys.** The state file keys are `CORE_MODE`, `AUTHORIZED_MODE` and `USER`.

## Model

| member | source | states |
|---|---|---|
| TimeServerClient.FormatTimeFields | fake_time_server/api.py:97-106 | the text is four colon-separated digit runs, the last three exactly two long. Read back they give hours < 24 and minutes, seconds < 60, and d·86400 + h·3600 + m·60 + s equals the count, clamped to 0 when negative |
| TimeServerClient.ClockFields | fake_time_server/api.py:99-105 | the successive floor divisions give fields in range that add up to the count |
| TimeServerClient.FormatTime | fake_time_server/api.py:97-106 | `days:HH:MM:SS` of the count, with a negative count shown as zero, so at least ten characters. FormatTimeFields states what the text reads back as |
| TimeServerClient.ToBool | fake_time_server/api.py:108-117 | `_to_bool`: text reads true only when, trimmed, it has one to six characters, the lengths of the true words. ToBoolMeaning and FlagReadsBack state its full meaning |
| TimeServerClient.ToBoolMeaning | fake_time_server/api.py:108-117 | a bool is kept, a number is true iff non-zero, text is true iff its trimmed form spells true/1/yes/on/active in any case, anything else is false |
| TimeServerClient.ToInt | fake_time_server/api.py:119-133 | `_to_int`: a number comes back unchanged, a flag is 1 or 0, null, lists and objects are 0, and text that after trimming is neither a digit run nor `-` and a digit run is 0; text reads negative only with a leading `-`. ToIntReadsDecimal, ToIntDigits, ToIntLeadingZeros, ToIntNegativeDigits and ToIntRejectsPlus state what the digit runs read as |
| TimeServerClient.ToIntReadsDecimal | fake_time_server/api.py:119-133 | any integer written by `str()`, with surrounding whitespace, reads back as that integer (so "-12" gives -12) |
| TimeServerClient.ToIntDigits | fake_time_server/api.py:127-133 | a plain run of decimal digits reads as its value |
| TimeServerClient.ToIntNegativeDigits | fake_time_server/api.py:125-130 | `-` before any run of decimal digits reads as the negated value, leading zeros included (`-007` is -7, `-0` is 0) |
| TimeServerClient.ToIntLeadingZeros | fake_time_server/api.py:127-133 | leading zeros do not change the reading: "007" reads as 7 |
| TimeServerClient.ToIntRejectsPlus | fake_time_server/api.py:125-133 | "+5" is neither a `-`-signed nor a plain digit run, so it reads as 0 |
| TimeServerClient.FormScalar | fake_time_server/api.py:24-30 | `_to_form_scalar`: a flag is written as `True` or `False`, null as empty text, a number as its decimal form, text as itself and a list or object as its `str()`. FormScalarReadsBack states that flags and numbers read back |
| TimeServerClient.FormScalarReadsBack | fake_time_server/api.py:24-30 | what is written for a flag or a number is read back by `_to_bool` and `_to_int` as exactly that flag and number |
| TimeServerClient.FlagReadsBack | fake_time_server/api.py:26-27 | `_to_bool` reads "True" as true and "False" as false |
| TimeServerClient.Expand | fake_time_server/api.py:36-41 | a list value gives one (key, scalar) pair per element, in order; any other value gives one pair |
| TimeServerClient.ExpandItem | fake_time_server/api.py:36-41 | the inner loop over one item yields exactly that item's expansion |
| TimeServerClient.EncodeQuery | fake_time_server/api.py:32-42 | an absent or empty dict gives ""; otherwise the result is the urlencoding of every item's expansion, in dict order |
| TimeServerClient.QueryPairsConcat | fake_time_server/api.py:35-41 | the pairs of consecutive items are the concatenation of their expansions |
| TimeServerClient.EncodedQueryDecodes | fake_time_server/api.py:32-42 | the encoded query decodes back to exactly the expanded pairs, in order |
| TimeServerClient.ActiveFrom | fake_time_server/api.py:137-144 | false on the failure marker; for a dict, the coerced value of the first present key of active/is_active/system_active; otherwise the coerced answer |
| TimeServerClient.OutcomeFrom | fake_time_server/api.py:181-188 | false on the failure marker; for a dict, the coerced value of the first present key of ok/success/status/active, true when none is present; true for any other answer |
| TimeServerClient.AllocationFrom | fake_time_server/api.py:200-205 | for a dict, the integer value of the first present key of allocated_time/allocated/value; otherwise the integer value of the answer. The failure marker reads as 0 |
| TimeServerClient.Share | fake_time_server/api.py:216 | the share is floor(total / n): share·n ≤ total < share·n + n |
| TimeServerClient.TimeServerApi.constructor | fake_time_server/api.py:11-19 | a client with the given server and no requests sent |
| TimeServerClient.TimeServerApi.SendRequest | fake_time_server/api.py:49-94 | exactly one request is logged, and the result is the server's answer to it |
| TimeServerClient.TimeServerApi.GetSystemActive | fake_time_server/api.py:135-144 | one `misc/get_active` request; the result is ActiveFrom of the answer |
| TimeServerClient.TimeServerApi.ListUserTimes | fake_time_server/api.py:146-148 | one `display/show_times` request; the raw answer is returned |
| TimeServerClient.TimeServerApi.ListUsers | fake_time_server/api.py:150-152 | one `admin/list_users` request; the raw answer is returned |
| TimeServerClient.TimeServerApi.ListUserCategories | fake_time_server/api.py:154-156 | one `admin/list_categories` request; the raw answer is returned |
| TimeServerClient.TimeServerApi.ListLogs | fake_time_server/api.py:158-160 | one `misc/get_logs` request; the raw answer is returned |
| TimeServerClient.TimeServerApi.ApplyOffsetUser | fake_time_server/api.py:162-168 | one JSON POST with `user_ids` [id] and the offset as text; success iff the answer is not the failure marker |
| TimeServerClient.TimeServerApi.ApplyOffsetCategory | fake_time_server/api.py:170-176 | one JSON POST with `ids` [id] and the offset as text; success iff the answer is not the failure marker |
| TimeServerClient.TimeServerApi.SetActive | fake_time_server/api.py:178-188 | one form POST with state "True"/"False"; the result is OutcomeFrom of the answer |
| TimeServerClient.TimeServerApi.DeactivateSystem | fake_time_server/api.py:190-196 | set_active(False) is sent only when the system reports itself active, and the result is its outcome; otherwise false with nothing more sent |
| TimeServerClient.TimeServerApi.GetTimeAllocation | fake_time_server/api.py:198-205 | one `misc/get_allocated_time` request; the result is AllocationFrom of the answer |
| TimeServerClient.TimeServerApi.SplitAllocatedEvenly | fake_time_server/api.py:207-219 | a missing, non-collection or empty user list gives false with only the list request sent and no division. Otherwise the allocation request follows, then exactly one offset request to category 0 with floor(total / users), and the result is its success |
| CommandLine.AnswerValue | fake_time_server/time_server.py:72-80 | the number an answer denotes: none exactly when the trimmed, underscore-free answer minus one optional `+` or `-` is not a non-empty run of digits, and never one for a blank answer. AnswerReadsDecimal, AnswerDigits, AnswerLeadingZeros, AnswerIgnoresUnderscores, AnswerSigned and the AnswerRejects lemmas state its meaning |
| CommandLine.CompareInputToInt | fake_time_server/time_server.py:72-80 | no value iff the trimmed, underscore-free answer minus one optional sign is not a digit run; otherwise a result in {-1, 0, 1} that is 0 iff the value equals ref and negative iff it is below ref |
| CommandLine.AnswerReadsDecimal | fake_time_server/time_server.py:72-85 | every integer typed as `str()` writes it is read as that integer and matches it |
| CommandLine.AnswerDigits | fake_time_server/time_server.py:73-79 | an unsigned digit run answers its decimal value |
| CommandLine.AnswerLeadingZeros | fake_time_server/time_server.py:73-79 | any number of leading zeros before a digit run leaves its value unchanged, so "007" answers 7 |
| CommandLine.AnswerIgnoresUnderscores | fake_time_server/time_server.py:73 | an answer with an extra `_` inside it reads the same as without it: underscores are dropped before parsing |
| CommandLine.AnswerSigned | fake_time_server/time_server.py:74-79 | `+` before a digit run answers its value and `-` its negation |
| CommandLine.AnswerRejectsEmpty | fake_time_server/time_server.py:77-78 | an empty answer is invalid |
| CommandLine.AnswerRejectsSign | fake_time_server/time_server.py:75-78 | a bare "-" is invalid |
| CommandLine.AnswerRejectsLetter | fake_time_server/time_server.py:77-78 | "7a" is invalid |
| CommandLine.YesNo | fake_time_server/time_server.py:87-92 | `_yes_no` given the line read: accepted only for a line whose trimmed text has one to three characters; the end of input declines. YesNoMeaning and YesNoDeclines state its meaning |
| CommandLine.YesNoMeaning | fake_time_server/time_server.py:87-92 | a prompt is accepted iff the trimmed answer spells "y" or "yes" in any case; the end of input declines |
| CommandLine.YesNoDeclines | fake_time_server/time_server.py:89-92 | an empty line and "no" decline |
| CommandLine.ParseBool | fake_time_server/time_server.py:94-100 | `_parse_bool`, none where it raises: a boolean only for trimmed text of one to five characters. ParseBoolMeaning, SpellingsDisjoint and ParseBoolReadsFlag state its meaning |
| CommandLine.ParseBoolMeaning | fake_time_server/time_server.py:94-100 | true iff the trimmed text spells 1/true/t/yes/y/on, false iff it spells 0/false/f/no/n/off, an error iff neither (any case) |
| CommandLine.SpellingsDisjoint | fake_time_server/time_server.py:96-98 | no spelling is both true and false |
| CommandLine.ParseBoolReadsFlag | fake_time_server/time_server.py:94-99 | "True" and "False" parse as the flags they name |
| CommandLine.ColumnWidths | fake_time_server/time_server.py:102-107 | one width per header; each is at least the header's length and every cell's length in its column, and equals one of them (the maximum) |
| CommandLine.LoadedSession | fake_time_server/time_server.py:25-39 | a missing or unreadable file, or a value that is not an object, leaves the session unchanged; otherwise present fields replace the current values, the flags by truthiness and the user by its `str()` |
| CommandLine.LoadSaveRoundTrip | fake_time_server/time_server.py:25-59 | loading the record `_save_state` writes restores exactly the saved session, whatever the session before |
| CommandLine.LoadWithoutFields | fake_time_server/time_server.py:33-37 | an object naming none of the three fields keeps the session |
| CommandLine.Cli.constructor | fake_time_server/time_server.py:18-20 | a process starts with CORE_MODE and AUTHORIZED_MODE false and no user |
| CommandLine.Cli.LoadState | fake_time_server/time_server.py:25-39 | the session becomes LoadedSession of the previous session and the file |
| CommandLine.Cli.SaveState | fake_time_server/time_server.py:41-67 | the file holds the current session's record when the write succeeds, and is unchanged when it fails |
| CommandLine.Cli.ReadLine | fake_time_server/time_server.py:83 | the next line, or none at the end of input; exactly one line is consumed |
| CommandLine.Cli.Confirm | fake_time_server/time_server.py:87-92 | YesNo of the next line, consuming it |
| CommandLine.Cli.CmdGetActive | fake_time_server/time_server.py:119-121 | one get_active request, then exit 0 |
| CommandLine.Cli.ShowTable | fake_time_server/time_server.py:162-188 | one request; 1 on the failure marker; 0 when the data iterates and every row is a list or text with at least as many items as there are headers, so that `r[i]` works for each column; otherwise the printing raises |
| CommandLine.Cli.CmdListUserTimes | fake_time_server/time_server.py:123-160 | one show_times request; 1 on the failure marker, an error for data that cannot be iterated, 0 otherwise (malformed items become error rows) |
| CommandLine.Cli.CmdGetAllocatedTime | fake_time_server/time_server.py:190-193 | one allocation request, then exit 0 |
| CommandLine.Cli.CmdApplyUserOffset | fake_time_server/time_server.py:195-199 | one user offset request; 0 iff it did not fail, else 1 |
| CommandLine.Cli.CmdApplyUserCat | fake_time_server/time_server.py:201-205 | one category offset request; 0 iff it did not fail, else 1 |
| CommandLine.Cli.CmdSetCoreMode | fake_time_server/time_server.py:207-224 | exit code, session, lines read, requests sent and state file are exactly those of CoreModeRun from the session before; the file is written only when the run saves |
| CommandLine.Cli.CmdAuthorize | fake_time_server/time_server.py:226-247 | exit code, session, lines read and state file are exactly those of AuthorizeRun, which sends no request |
| CommandLine.Cli.CmdSetUser | fake_time_server/time_server.py:249-268 | exit code, session, lines read, requests sent and state file are exactly those of UserRun |
| CommandLine.Cli.CmdSetActive | fake_time_server/time_server.py:270-308 | exit code, lines read and requests sent are exactly those of SetActiveRun; no privilege or file changes |
| CommandLine.Cli.CmdSplitAllocatedTime | fake_time_server/time_server.py:310-319 | exit code, lines read and requests sent are exactly those of SplitRun; no privilege or file changes |
| CommandLine.Cli.Dispatch | fake_time_server/time_server.py:355-403 | the state is loaded, and the exit code or escaping error, the session, the lines read, the requests sent and the state file are then exactly those of CommandRun for the command from the loaded session. For example `--get_active` sends one get_active request and exits 0 |
| CommandLine.Cli.RunQuery | fake_time_server/time_server.py:361-385 | exit code and requests are exactly those of QueryRun: each query command sends its one request and exits as its `cmd_` function does, and a non-integer offset argument raises before any request |
| CommandLine.Cli.RunSetActive | fake_time_server/time_server.py:396-398 | exit code, lines read and requests are exactly those of SetActiveArgRun: an invalid boolean raises before any prompt or request, and a valid one runs set_active for the state it names |
| CommandLine.QueryRunsKeepSession | fake_time_server/time_server.py:119-205 | the query commands prompt for nothing, change no privilege, write no file and send at most one request |
| CommandLine.UserOffsetArguments | fake_time_server/time_server.py:379-381 | `--apply_user_offset` with two integers typed as `str()` writes them sends the user offset request for exactly those integers; exit 0 iff the answer is not the failure marker |
| CommandLine.CategoryOffsetArguments | fake_time_server/time_server.py:383-385 | likewise `--apply_user_cat` sends the category offset request for exactly those integers |
| CommandLine.CoreModeGate | fake_time_server/time_server.py:207-224 | the session becomes the old one with CORE_MODE set exactly on exit 0 and is unchanged otherwise; the file is saved exactly on exit 0. Exit 0 iff both consents are given and the next line matches the allocated total. A declined prompt, or a wrong total once it is typed, exits 2. The allocation is requested iff both consents are given |
| CommandLine.AuthorizeGate | fake_time_server/time_server.py:226-247 | no request. The session becomes the old one with AUTHORIZED_MODE set exactly on exit 0 and is unchanged otherwise; the file is saved exactly on exit 0. Exit 0 iff there is consent, CORE_MODE, a user, and the next line is the unlock code. A declined prompt or a missing privilege exits 2 after one line, and a wrong password exits 2 |
| CommandLine.UserGate | fake_time_server/time_server.py:249-268 | the session becomes the old one with USER set to the given name exactly on exit 0 and is unchanged otherwise; the file is saved exactly on exit 0. Exit 0 iff there is consent, the next line matches the user count plus one, and the name is the configured user when one is configured. A declined prompt, a wrong count or another name exits 2. The users are listed iff there is consent |
| CommandLine.SetActiveGate | fake_time_server/time_server.py:270-308 | set_active changes no privilege and writes no file. Without AUTHORIZED_MODE it reads and sends nothing. The one set_active request for the given state goes out iff AUTHORIZED_MODE and three consents; without it the exit code is 2, with it 0 if the answer reads as success and 1 otherwise |
| CommandLine.SetActiveArgGate | fake_time_server/time_server.py:396-398 | an argument that is no boolean raises before any prompt or request and changes nothing |
| CommandLine.SetActiveArgument | fake_time_server/time_server.py:94-100 | `--set_active True` and `--set_active False` run set_active for the state they name |
| CommandLine.SplitGate | fake_time_server/time_server.py:310-319 | split changes no privilege and writes no file. Without AUTHORIZED_MODE it reads and sends nothing. It sends requests iff AUTHORIZED_MODE and consent, else exits 2. Then the user list comes first; when it is not empty the allocation request and the category 0 offset of the floor share follow; the exit code is 0 iff that offset was sent and its answer is not the failure marker, else 1 |
| CommandLine.PrivilegesOnlyGrow | fake_time_server/time_server.py:355-403 | for every command: no privilege is lowered and the file is written only on exit 0. AUTHORIZED_MODE rises only through authorize exiting 0, after consent, from CORE_MODE with a user and the unlock code typed. CORE_MODE rises only through set_core_mode exiting 0. USER changes only through set_user exiting 0, to the name given. The gated commands send and read nothing without AUTHORIZED_MODE. A bad number or boolean argument raises before any prompt or request |
| Dynamic.ReprLineSeparator | fake_time_server/time_server.py:36-37 | `repr` writes U+2028 inside text as its `\u2028` escape |
| Base64.Encode | displays/display_tool/display_tool.py:276 | 4 characters per started group of 3 bytes, all ASCII, each `=` or an alphabet character |
| Base64.Decode | displays/display_tool/display_tool.py:248 | decoded values are bytes; text with a non-ASCII character is an error |
| Base64.RoundTrip | displays/display_tool/display_tool.py:248-276 | decoding what the encoder wrote gives back the bytes |
| Base64.GroupDecodes | displays/display_tool/display_tool.py:248-276 | a full group of 3 bytes decodes back to those bytes and decoding continues with the rest |
| Base64.TailDecodes | displays/display_tool/display_tool.py:248-276 | a padded final group of 1 or 2 bytes decodes back to exactly those bytes |
| Base64.LenientDecoding | displays/display_tool/display_tool.py:248 | "AA==" and "A A==" both decode to one zero byte: characters outside the alphabet are skipped |
| Base64.StopsAtPadding | displays/display_tool/display_tool.py:248 | whatever ASCII follows a completed padding is ignored |
| Base64.TruncatedDecoding | displays/display_tool/display_tool.py:248 | "A", "AA" and "AA=" fail to decode: the data ends inside a group |
| PyText.PyInt | fake_time_server/time_server.py:379-385 | `int(s, base)` for bases 10 and 16, none where Python raises: blank text is an error. DecimalRoundTrip and HexRoundTrip state that it reads back what `str()` and the hex formatting write |
| PyText.DecimalRoundTrip | fake_time_server/time_server.py:379-385 | `int()` of the decimal text `str()` writes for any integer gives that integer back |
| PyText.HexRoundTrip | displays/display_tool/display_tool.py:277 | `int(s, 16)` of the zero-padded uppercase hex of any integer gives it back |
| PyText.SplitJoin | displays/display_tool/display_tool.py:241-242 | splitting a join of separator-free pieces gives the pieces back |
| PyText.JoinSplit | displays/display_tool/display_tool.py:241-242 | joining the pieces of a split with the same separator gives back the text |
| FormEncoding.UrlEncodeRoundTrip | fake_time_server/api.py:42 | a urlencoded list of pairs decodes back to exactly those pairs, in order |
| FrameCodec.Uniform | displays/display_tool/display_tool.py:150-156 | a 19-row grid of the given width with every cell the given value |
| FrameCodec.Buffer | displays/display_tool/display_tool.py:212-235 | exactly 19·4·screens values, every one a byte |
| FrameCodec.BufferBits | displays/display_tool/display_tool.py:219-234 | bit i of byte b for row y and screen s is set iff the cell at column s·28 + 8b + i is non-zero; the padding bits 28-31 of every screen row are 0 |
| FrameCodec.ParseFrame | displays/display_tool/display_tool.py:238-251 | no frame without the `!FRAME;` prefix; any frame read carries bytes |
| FrameCodec.ExportText | displays/display_tool/display_tool.py:275-280 | the line `export_frame` writes starts with `!FRAME;`. ExportFields, ParseExport and ExportLoadRoundTrip state its meaning |
| FrameCodec.ExportFields | displays/display_tool/display_tool.py:277-279 | the exported line starts with `!FRAME;` and its `;`-fields are exactly `ADDR=` plus the 2-digit hex address, `01`, the hex length and the base64 |
| FrameCodec.AddressField | displays/display_tool/display_tool.py:242 | the address field splits at `=` into `ADDR` and the hex address |
| FrameCodec.ParseExport | displays/display_tool/display_tool.py:238-280 | parsing the exported line gives back the address and the bytes |
| FrameCodec.Unpacked | displays/display_tool/display_tool.py:254-271 | the loaded grid is a 19 × (screens·28) grid of bits |
| FrameCodec.GridStep | displays/display_tool/display_tool.py:264-270 | one bit step writes bit `bit` of byte k into the targeted cell when it lies inside the grid, and nothing else |
| FrameCodec.GridAtStart | displays/display_tool/display_tool.py:254-255 | before the first bit step the grid is the zeroed grid |
| FrameCodec.UnpackedCell | displays/display_tool/display_tool.py:256-271 | every loaded cell is its own bit when the payload reaches its byte. For columns 0-3 of a later screen it is the previous byte's padding bit when the payload ends right before its byte. Otherwise it is 0, and no byte past the payload is read |
| FrameCodec.UnpackBuffer | displays/display_tool/display_tool.py:212-271 | unpacking the packed buffer with the same screen count gives back the drawing |
| FrameCodec.ExportLoadRoundTrip | displays/display_tool/display_tool.py:238-280 | the exported line parses, carries the address, and its bytes unpack to the drawing |
| FrameCodec.TruncatedPayloadLeaks | displays/display_tool/display_tool.py:259-271 | with two screens and a 4-byte payload, cell (0, 28) is 1 when the last byte is 0xF0 and 0 when it is 0x0F |
| DisplayTool.Paint | displays/display_tool/display_tool.py:163 | the grid keeps its shape, and only the one cell changes, to the given value |
| DisplayTool.PackScreen | displays/display_tool/display_tool.py:218-234 | the 28 cells of a screen in a row become 4 bytes: three of 8 cells and one of the last 4, least significant bit first |
| DisplayTool.BufferSlice | displays/display_tool/display_tool.py:218-234 | the 4 bytes of screen s in row y sit at position (y·screens + s)·4 of the buffer |
| DisplayTool.PackRow | displays/display_tool/display_tool.py:220-234 | packing one display row extends a prefix of the buffer by that row's bytes, leaving a longer prefix of the buffer |
| DisplayTool.DisplayEditor.constructor | displays/display_tool/display_tool.py:18-29 | 5 screens, address 0x3C, an all-zero grid, no stroke |
| DisplayTool.DisplayEditor.Clear | displays/display_tool/display_tool.py:150-152 | the grid becomes all 0 at the current width; nothing else changes |
| DisplayTool.DisplayEditor.Fill | displays/display_tool/display_tool.py:154-156 | the grid becomes all 1 at the current width; nothing else changes |
| DisplayTool.DisplayEditor.MouseDown | displays/display_tool/display_tool.py:158-164 | a press inside 0 ≤ x < screens·28, 0 ≤ y < 19 (cell = floor of position / 10) starts a stroke, erasing iff button 3, and sets that one cell to 0 when erasing, else 1; outside nothing changes |
| DisplayTool.DisplayEditor.MouseUp | displays/display_tool/display_tool.py:166-167 | the stroke ends; nothing else changes, and the editor's invariant is kept |
| DisplayTool.DisplayEditor.MouseMove | displays/display_tool/display_tool.py:169-174 | during a stroke, the one cell under the mouse, when inside the grid, is painted the way the stroke began; otherwise nothing changes |
| DisplayTool.DisplayEditor.GetBuffer | displays/display_tool/display_tool.py:212-235 | the bytes appended are exactly Buffer of the drawing |
| DisplayTool.DisplayEditor.ExportFrame | displays/display_tool/display_tool.py:275-280 | the frame entry holds the export line of the current address and buffer; nothing else changes |
| DisplayTool.DisplayEditor.LoadFrame | displays/display_tool/display_tool.py:238-272 | a line that does not parse leaves address and drawing unchanged. Otherwise the address is taken from the line and the drawing becomes Unpacked of its bytes at the current screen count |
| DisplayTool.DisplayEditor.ApplyFrame | displays/display_tool/display_tool.py:251-271 | no frame leaves address and drawing unchanged; a frame sets the address and the drawing becomes Unpacked of its bytes; screens, entry text and stroke are kept |
| DisplayTool.DisplayEditor.LoadPayload | displays/display_tool/display_tool.py:254-271 | the drawing becomes Unpacked of the payload at the current screen count; nothing else changes |
| DisplayTool.DisplayEditor.UnpackPayload | displays/display_tool/display_tool.py:256-271 | the row and screen loops take the zeroed grid to Unpacked of the payload |
| DisplayTool.DisplayEditor.UnpackScreen | displays/display_tool/display_tool.py:259-271 | one screen's byte loop advances the read position to min(payload length, next screen start) and the grid with it; it stops when the payload is used up |
| DisplayTool.DisplayEditor.UnpackByte | displays/display_tool/display_tool.py:263-270 | one byte's 8 bit steps |
| DisplayTool.DisplayEditor.ChangeScreens | displays/display_tool/display_tool.py:282-286 | the new screen count, and an all-zero grid of the new width |
| DisplayTool.DisplayEditor.ChangeAddress | displays/display_tool/display_tool.py:288-291 | the address becomes `int(text, 16)` when there is text and it parses; otherwise it is unchanged |

## Left out

- The HTTP transport of `send_request` is not modelled: URL joining, `urlopen`, TLS, timeouts, charset decoding and JSON parsing. The server is the abstract function `remote`.
- Requests are abstract values: an endpoint (`Endpoint`, whose spelled path is `Path`), the verb, the payload pairs and the mode. Neither the `json.dumps` body nor the form body is built, and `EncodeQuery`, which models `_encode_query`, is not connected to `SendRequest`.
- `json.loads` results with floating-point numbers are not modelled. So `format_time` and `_to_int` of a float, and `_to_bool` of a float, are left out.
- `TimeServerClient.ToInt`: `int(v)` on a non-ASCII Unicode digit string is not modelled, and `str.isdigit` is modelled for ASCII digits only. The same holds for `CommandLine.AnswerValue`.
- `PyText.PyInt`: `int()` accepts non-ASCII Unicode digits in `load_frame`, `change_address` and `main`'s `int(uid)`; the model reads ASCII digits only.
- `PyText.Lower` lower-cases ASCII letters only. Every text it is compared against is lower-case ASCII. Only the Kelvin sign and the dotted capital I lower to ASCII outside A-Z, and neither can produce one of the compared words.
- File I/O of `_load_state`/`_save_state` is reduced to the decoded file contents and a flag telling whether the write succeeds. This covers the temp file, `os.replace`, `makedirs` and the state file path.
- `CommandLine.LoadedSession`: any read or JSON error is the single `Unreadable` case.
- `Dynamic.Get` takes the first entry for a key. An object value stands for the dict `json.loads` returns, whose keys are distinct because it keeps the last of duplicate keys in the text; JSON parsing itself is not modelled.
- Printed messages and banners, `time.sleep`, and argparse's construction and usage errors are not modelled. The command is given as a parsed `Command` value, so argparse's exit code for a missing option is not modelled.
- The final `return 2` of `main` is not modelled, because argparse requires one option of the group and it cannot be reached.
- `cmd_list_user_times` builds each row from the wall clock (`datetime.now`, `fromisoformat`) and is not modelled per row. Only its outcome is modelled: every item becomes a row or an error row, so the command fails only on data that cannot be iterated.
- `CommandLine.Cli.ShowTable`: what is printed is not stated, only the outcome. The width loop of `_print_table` is the separate method `ColumnWidths`, which `ShowTable` does not call.
- `Dynamic.Repr`: which characters `repr` escapes follows the Unicode 14.0 categories Cc, Cf, Co, Zs, Zl and Zp. Unassigned code points (Cn) are written as they are, where Python escapes them.
- `show_web_admin` is not modelled: it is a placeholder returning 0.
- The GTK, cairo and Pango side of the editor is not modelled: `setup_ui`, `on_draw`, `update_canvas_size`, `draw_text`'s font rasterization and the `set_active_id` call on the address combo in `load_frame`. `send_serial` and the serial port are also left out.
- `displays/display_tool/display_tool_web.py` and `firmware/in_time_terminal/intime_pinout.h` are not part of this model.
- `DisplayTool.DisplayEditor.MouseDown` and `MouseMove` take the mouse position as an integer, the floor of GTK's float position. `floor(p / 10)` equals `floor(floor(p) / 10)`, so no cell choice is lost.
- `DisplayTool.DisplayEditor.ChangeScreens` requires a count from 1 to 16, the spin button's range.
- `load_frame` parses the command and the length fields and checks that they are hexadecimal, but does not use their values; the model does the same.
- The inner loops of `get_buffer` and `load_frame` are separate methods in the model: `PackRow`, `PackScreen`, `LoadPayload`, `UnpackPayload`, `UnpackScreen` and `UnpackByte`, and `ApplyFrame` holds what `load_frame` does after parsing. The inner loop of `_encode_query` is `ExpandItem`. `main`'s dispatch is `Dispatch`, with `RunQuery` and `RunSetActive` for the query commands and `--set_active`. The tails of `cmd_set_core_mode` and `cmd_set_user`, after the consents, are the methods `CheckAllocation` and `CheckUser`. The statements and their order are those of the source.
