# Verified model of the VPS backend core

This project models the core of a backend that provisions virtual private
servers. The backend clones machines on a Proxmox hypervisor, exposes them
through port-forwarding rules on a UniFi controller, and keeps users,
machines and port forwards as database records. The model covers:

- **Records.** The machine status enumeration and its lifecycle guards
  (`is_active`, `can_start`, `can_stop`, `can_delete`). The field defaults,
  display strings and `to_dict` forms of the machine, user and port-forward
  records. The uniqueness constraints of the port-forward table.
- **Configuration.** Settings defaults, the two field validators, and the
  derived `admin_ids_list` and `is_production`.
- **Request validators.** The field constraints of the machine and
  port-forward request bodies. The page count of a paginated response.
- **Hypervisor gateway.** The task-polling loop and the call sequence of
  `clone_vm`.
- **Forwarding-controller gateway.** Protocol translation, the rule
  document, extraction of results from replies, lookup by id, the
  read-merge-replace update, and the lazily opened connection.

Remote systems are not modelled. Each request the gateways send is recorded,
in order, in a log (`UnifiService.log`) or a returned list of calls
(`WaitForTask`, `CloneVm`). The caller scripts each request's outcome: a
reply, or an exception. A hypervisor poll outcome is `polls(i)` for the
`i`-th poll. Sleeping is counted, not performed.

Layout: `wrappers.dfy` (Option and Result), `text.dfy` (Python's `strip`,
`split`, `lower` and `str(int)`, with their inverses), `values.dfy`
(dictionary values), then one file per source file: `config.dfy`,
`vm_model.dfy`, `user_model.dfy`, `port_model.dfy`, `vm_schemas.dfy`,
`port_schemas.dfy`, `common_schemas.dfy`, `proxmox.dfy` and `unifi.dfy`.
`consistency.dfy` relates modules to each other.

## Model

| member | source | states |
|---|---|---|
| `Config.WithDefaults` | app/config.py:12-49 | Settings built from the required values alone take the declared defaults: development, no debug, SSH ports 20000..30000, 4096 MB, 4 cores, 20 GB, template 9000, controller port 8442, node `pve`, no admins |
| `Config.ValidateDatabaseUrl` | app/config.py:74-82 | A URL is accepted, unchanged, iff it is `postgres://` or `postgresql://` followed by anything; otherwise the error names `database_url` |
| `Config.ValidateSecretKey` | app/config.py:84-89 | A key is accepted, unchanged, iff it has at least 32 characters; the validator repeats the field's `min_length` test and can never reject a key that test lets through |
| `Config.Validate` | app/config.py:74-89 | Settings validate iff both field validators accept; a failure names `database_url` iff the URL validator rejects and `secret_key` iff the key is short, and nothing else |
| `Config.ProductionIsExact` | app/config.py:69-72 | `is_production` holds iff `app_env` is exactly `production`; other case or trailing space does not count |
| `Config.KeepStripped` | app/config.py:63-67 | The kept entries are non-empty and stripped, and there are no more of them than segments |
| `Config.KeepStrippedNoneContain` | app/config.py:63-67 | A character absent from every segment is absent from every kept entry |
| `Config.AdminIdsList` | app/config.py:58-67 | An empty setting gives `[]`; every entry is non-empty, has no surrounding whitespace and no comma |
| `Config.KeepStrippedConcat` | app/config.py:63-67 | Entries keep source order: the entries of two runs of segments are those of the first followed by those of the second |
| `Config.KeepStrippedSingle` | app/config.py:63-67 | A segment contributes exactly its stripped text, or nothing when that is blank |
| `Config.KeepStrippedFixed` | app/config.py:63-67 | Segments already non-empty and stripped are kept as they are |
| `Config.AdminIdsListNormalises` | app/config.py:58-67 | Joining the parsed list with commas and parsing again gives the same list |
| `VmModel.StatusValues` | app/models/vm.py:12-26 | Each status value is its member name lower-cased (`pending` … `deleted`) and the eight values are distinct |
| `VmModel.StatusFromValue` | app/models/vm.py:17-26 | Looking a value up gives the status with that value, or nothing when no status has it |
| `VmModel.StatusValueRoundTrip` | app/models/vm.py:12-26 | Every status is recovered from its value |
| `VmModel.GuardsByStatus` | app/models/vm.py:72-90 | `is_active` iff RUNNING or CREATING; `can_start` iff STOPPED or SUSPENDED; `can_stop` iff RUNNING; `can_delete` iff neither DELETING nor DELETED |
| `VmModel.StartStopExclusive` | app/models/vm.py:77-85 | No status allows both start and stop |
| `VmModel.OnlyDeleteFrom` | app/models/vm.py:77-90 | PENDING, CREATING and ERROR allow delete and nothing else |
| `VmModel.GuardPartition` | app/models/vm.py:72-90 | Every status is startable, stoppable, only deletable, or already being deleted; active and startable or stoppable machines are deletable |
| `VmModel.NewVirtualMachine` | app/models/vm.py:34-61 | A new record is PENDING with 4096 MB, 4 cores, 20 GB, no hypervisor id, port, address, message or start/stop times, and both automatic timestamps set |
| `VmModel.NewVirtualMachineOnlyDeletable` | app/models/vm.py:42-51 | A new record is inactive and may only be deleted |
| `VmModel.DisplayShowsIds` | app/models/vm.py:69-70 | The display string starts with the name and ends with the hypervisor id in decimal, or `None`, and a closing parenthesis |
| `VmModel.ToDict` | app/models/vm.py:92-112 | The dictionary has exactly the sixteen keys; each timestamp is `None` iff it is absent |
| `VmModel.DictRoundTrip` | app/models/vm.py:92-112 | The record is read back whole from its dictionary: every field is copied and nothing is lost |
| `UserModel.NewUser` | app/models/user.py:32-38 | A new user is not an admin, is active, is not banned, has no avatar, email or last login, and both automatic timestamps are set |
| `UserModel.DisplayName` | app/models/user.py:47-52 | The display name, and the string form, is the Discord username |
| `UserModel.AvatarUrl` | app/models/user.py:54-59 | No URL iff the avatar is missing or empty; otherwise the URL is the CDN prefix, then exactly `<discord_id>/<avatar hash>`, then `.png` |
| `UserModel.AvatarUrlInjective` | app/models/user.py:58 | When ids contain no `/`, the URL determines both the Discord id and the avatar hash |
| `UserModel.ToDictAsWritten` | app/models/user.py:68-81 | As written, serialising fails iff `created_at` is set and `last_login` is not; `last_login` is `None` whenever `created_at` is |
| `UserModel.ToDictAsWrittenFailsForNewUser` | app/models/user.py:80 | A user saved with only its required fields, `last_login` left at its null default, makes the written `to_dict` fail |
| `UserModel.ToDict` | app/models/user.py:68-81 | The corrected form has the nine keys, the username and avatar URL, and `last_login` is `None` iff it is absent |
| `UserModel.ToDictAgrees` | app/models/user.py:79-80 | Whenever the written form succeeds, it equals the corrected one, except that it drops `last_login` when `created_at` is missing |
| `PortModel.NewPortForward` | app/models/port.py:14-31 | A new record forwards to port 22 over `tcp`, is active, and has no rule id or description |
| `PortModel.DisplayReadsBack` | app/models/port.py:40-41 | The display string starts with `Port Forward ` and both ports read back from it |
| `PortModel.ToDict` | app/models/port.py:43-57 | The dictionary has exactly the ten keys; `vm_id` is the machine's key and `created_at` is the raw timestamp |
| `PortModel.DictRoundTrip` | app/models/port.py:43-57 | The record is read back from its dictionary except `updated_at`, which is not part of it |
| `PortModel.ExternalUniqueImpliesPairs` | app/models/port.py:18-38 | A unique external port makes the (port, protocol) pair constraint hold |
| `PortModel.UnsyncedRecordsCoexist` | app/models/port.py:16-18 | Any number of records may lack a rule id |
| `PortModel.InsertKeepsValid` | app/models/port.py:16-38 | Adding a record keeps the table valid iff its external port is new and its rule id, when present, is new |
| `PortModel.DistinctPortsCount` | app/models/port.py:18 | A table with unique external ports has as many ports as records |
| `PortModel.CapacityBound` | app/models/port.py:18 | A valid table whose ports lie in a range holds no more records than the range has ports |
| `VmSchemas.SizeErrors` | app/schemas/vm.py:15-17 | A size field fails iff it is present and outside 512..16384 MB, 1..8 cores or 10..200 GB |
| `VmSchemas.ValidateCreate` | app/schemas/vm.py:10-21 | A create body is accepted, unchanged, iff its name has 3..100 characters from `[a-zA-Z0-9-]` and each present size is in range; a failure names `name` iff the name fails, and exactly the sizes out of range |
| `VmSchemas.ValidateUpdate` | app/schemas/vm.py:23-30 | An update body is accepted, unchanged, iff a present name has 3..100 characters of any kind and each present size is in range; a failure names `name` iff a present name has the wrong length, and exactly the sizes out of range |
| `VmSchemas.EmptyUpdateValid` | app/schemas/vm.py:23-30 | Every update field is optional |
| `VmSchemas.UpdateLaxerThanCreate` | app/schemas/vm.py:12-30 | Whatever a create body accepts, an update body accepts |
| `VmSchemas.UpdateAcceptsNamesCreateRefuses` | app/schemas/vm.py:12-27 | An update accepts a name with spaces that a create body refuses |
| `VmSchemas.MatchAction` | app/schemas/vm.py:34 | The alternation matches iff the text is one of the alternatives |
| `VmSchemas.ValidateAction` | app/schemas/vm.py:32-34 | An action is accepted iff it is exactly start, stop, restart, suspend or delete |
| `VmSchemas.ActionLetters` | app/schemas/vm.py:34 | Every accepted action is a lower-case word of four to seven letters |
| `VmSchemas.ActionIsExact` | app/schemas/vm.py:34 | Text before or after an accepted action makes it refused |
| `PortSchemas.DottedQuadIsJoin` | app/schemas/ports.py:13 | The intended address pattern accepts exactly four groups of one to three digits joined by dots |
| `PortSchemas.DottedQuadLength` | app/schemas/ports.py:13 | An address the intended pattern accepts has 7 to 15 characters |
| `PortSchemas.GroupsFormDottedQuad` | app/schemas/ports.py:13 | Any four groups of one to three digits joined by dots form an address the intended pattern accepts |
| `PortSchemas.SkipPlain` | app/schemas/ports.py:13 | Characters other than escapes, brackets and parentheses do not change how a pattern's brackets and groups are read |
| `PortSchemas.WrittenIpPatternDoesNotCompile` | app/schemas/ports.py:13 | The `internal_ip` pattern as written compiles under neither the `regex` crate nor Python's `re`: the `]` meant to close the first class comes after the `)`, so `re` leaves the group open and the `regex` crate leaves the outer class open |
| `PortSchemas.UnclosedAfterNestedBracket` | app/schemas/ports.py:13 | Any pattern with the written pattern's layout of escape, brackets and parentheses fails to compile under both engines |
| `PortSchemas.IntendedIpPatternCompiles` | app/schemas/ports.py:13 | The pattern with the class closed before `{1,3}` compiles under both engines |
| `PortSchemas.BalancedGroupAndClasses` | app/schemas/ports.py:13 | Any pattern with the intended pattern's layout compiles under both engines |
| `PortSchemas.ValidateCreateAsWritten` | app/schemas/ports.py:9-19 | As written: the schema error is returned exactly when the `internal_ip` pattern cannot be compiled, and a body that gets through is one the corrected schema accepts, unchanged |
| `PortSchemas.CreateAsWrittenRefusesEveryBody` | app/schemas/ports.py:9-19 | As written, every create body is refused with the schema error |
| `PortSchemas.SampleBodyShowsSchemaError` | app/schemas/ports.py:9-19 | A body forwarding port 20000 to `10.0.0.1` with the defaults is accepted by the corrected schema and refused as written |
| `PortSchemas.ValidateCreate` | app/schemas/ports.py:9-19 | A create body is accepted iff the external port is in 1024..65535, a present internal port is in 1..65535, the address is a dotted quad (the corrected pattern, see Findings), a present protocol is tcp, udp or both, and a present description has at most 500 characters; omitted fields become 22 and `tcp`; a failure names exactly the fields whose constraint fails |
| `PortSchemas.DefaultsValid` | app/schemas/ports.py:12-14 | The defaults 22 and `tcp` meet their own constraints |
| `PortSchemas.ValidatedCreateMeetsConstraints` | app/schemas/ports.py:9-15 | A validated body meets every field constraint, defaults included |
| `PortSchemas.ValidateUpdate` | app/schemas/ports.py:21-24 | An update body is accepted, unchanged, iff a present description has at most 500 characters |
| `PortSchemas.UpdateOptional` | app/schemas/ports.py:15-24 | The empty update is valid, and the description limit is the same in both bodies |
| `CommonSchemas.NewMessageResponse` | app/schemas/common.py:10-13 | `success` is true unless given |
| `CommonSchemas.NewErrorResponse` | app/schemas/common.py:41-46 | `detail` is as given and `success` is false unless given |
| `CommonSchemas.FloorDiv` | app/schemas/common.py:33-35 | `//` rounds toward negative infinity for either sign of divisor |
| `CommonSchemas.Create` | app/schemas/common.py:15-39 | A zero page size raises on the division; otherwise the response is built iff `page >= 1` and `1 <= page_size <= 100`, with items, total, page and page size passed through, and a failure names the failing fields |
| `CommonSchemas.PagesIsCeiling` | app/schemas/common.py:33-35 | For a non-negative total the page count is the ceiling: pages × page size covers the total, one page fewer does not, and no items give no pages |
| `CommonSchemas.CeilingUnique` | app/schemas/common.py:33-35 | The ceiling is the only count with that property |
| `Proxmox.OrElse` | app/services/proxmox.py:60-62 | A missing or zero value is replaced by the fallback; any other value is kept |
| `Proxmox.CreateRequest` | app/services/proxmox.py:85-109 | `create_vm` sends the machine's id, name, memory and cores, and a disk on `local-lvm:` |
| `Proxmox.CreateRequestDiskReadsBack` | app/services/proxmox.py:106 | The disk size reads back, as a decimal number, from the volume `create_vm` asks for |
| `Proxmox.ResizeRequest` | app/services/proxmox.py:111-121 | `resize_disk` resizes `scsi0` to a size text ending in `G` |
| `Proxmox.ResizeRequestReadsBack` | app/services/proxmox.py:120 | The text before the `G` is the size in decimal |
| `Proxmox.ProxmoxService.constructor` | app/services/proxmox.py:22-30 | The service keeps the configured node |
| `Proxmox.ProxmoxService.WaitForTask` | app/services/proxmox.py:123-144 | At most `timeout` polls (none when `timeout <= 0`), every poll but the last non-terminal; the loop stops at the first stopped status or exception, or at the ceiling; the result is true iff the last poll reports stopped with exit status `OK`; one sleep per non-terminal poll |
| `Proxmox.WaitSucceedsIff` | app/services/proxmox.py:123-144 | A wait ends in success iff some poll within the ceiling reports stopped with exit status `OK` and no earlier poll ended the wait |
| `Proxmox.ProxmoxService.CloneVm` | app/services/proxmox.py:44-83 | Clone from the template (default when falsy) with `full=1`, then at most 60 status polls, then the configuration request with defaulted memory and cores and `onboot=0` whatever the wait returned, then a resize iff `disk` is truthy; the result is the clone reply, or the first request that raised |
| `Unifi.Translate` | app/services/unifi.py:87-97 | The result is tcp, udp or tcp_udp: udp iff the lower-cased input is udp, tcp_udp iff it is both or tcp_udp, and tcp for anything else |
| `Unifi.TranslateIgnoresCase` | app/services/unifi.py:94-97 | Translation ignores case |
| `Unifi.TranslateIdempotent` | app/services/unifi.py:87-92 | A translated name translates to itself |
| `Unifi.BuildRule` | app/services/unifi.py:99-109 | The rule document has exactly its nine keys: name, enabled flag, `wan` interface, source `any`, forward address, translated protocol, logging off |
| `Unifi.BuildRulePorts` | app/services/unifi.py:104-106 | Both ports are sent as decimal strings that read back to the ports |
| `Unifi.FirstOrEmpty` | app/services/unifi.py:119-122 | The first element of `data` when there is one, otherwise `{}` |
| `Unifi.DataOrEmpty` | app/services/unifi.py:222-225 | `data` when present, otherwise `[]` |
| `Unifi.ListedRules` | app/services/unifi.py:214-229 | A listing that raises reads as `[]` |
| `Unifi.FirstMatchSpec` | app/services/unifi.py:198-202 | The lookup finds nothing iff no rule has the id; otherwise it finds the first rule in list order with the id |
| `Unifi.FirstMatchUnique` | app/services/unifi.py:198-202 | With unique ids, the lookup finds the one rule with the id |
| `Unifi.FindRule` | app/services/unifi.py:198-202 | The scanning loop returns the first rule with the id, or `None` |
| `Unifi.Merge` | app/services/unifi.py:165-170 | The replacement has the stored keys, the keyword keys and `enabled` when given; keyword values win, then `enabled`, and every other key keeps its stored value |
| `Unifi.MergeOneField` | app/services/unifi.py:165-170 | Changing one field keeps every other field of the stored rule |
| `Unifi.MergeIdempotent` | app/services/unifi.py:165-170 | Applying the same update to its own result changes nothing |
| `Unifi.UnifiService.constructor` | app/services/unifi.py:21-25 | A new service has no session, no controller, the flag clear, and has sent nothing |
| `Unifi.UnifiService.Connect` | app/services/unifi.py:38-59 | Corrected: the session is opened or reopened and a login sent; the flag is set iff the login succeeds |
| `Unifi.UnifiService.ConnectAsWritten` | app/services/unifi.py:43-53 | As written: a session is created if there is none, then the undeclared site setting raises before any login |
| `Unifi.UnifiService.ConnectKeepingSession` | app/services/unifi.py:43-59 | As written, given a site: a closed session is reused, so the login fails and nothing is sent |
| `Unifi.UnifiService.Disconnect` | app/services/unifi.py:61-67 | The session, if any, is closed, the flag is cleared, and the controller is kept |
| `Unifi.UnifiService.Ensure` | app/services/unifi.py:31-36 | Connects only when the flag is clear or there is no controller; afterwards a session is open, a controller exists, and the service is ready iff it was ready or the login succeeded |
| `Unifi.UnifiService.CreatePortForward` | app/services/unifi.py:69-122 | After connecting, posts exactly the rule document, with 22, `tcp` and enabled for omitted arguments, and returns the reply's first document or `{}`; a failing request or login propagates; afterwards a session is open, a controller exists, and the service is connected iff it was ready or the login succeeded |
| `Unifi.UnifiService.DeletePortForward` | app/services/unifi.py:124-144 | After connecting, sends the delete and returns true, or false when it raises; only a failed login propagates; afterwards a session is open, a controller exists, and the service is connected iff it was ready or the login succeeded |
| `Unifi.UnifiService.ListPortForwards` | app/services/unifi.py:204-229 | After connecting, sends one listing request and returns `data`, or `[]` when it is missing or the request raises; afterwards a session is open, a controller exists, and the service is connected iff it was ready or the login succeeded |
| `Unifi.UnifiService.GetPortForward` | app/services/unifi.py:185-202 | Corrected: one listing request, and the first listed rule with the id, or `None`; afterwards a session is open, a controller exists, and the service is connected iff it was ready or the login succeeded |
| `Unifi.UnifiService.GetPortForwardAsWritten` | app/services/unifi.py:196-198 | As written: always fails, and sends no listing request; afterwards a session is open, a controller exists, and the service is connected iff it was ready or the login succeeded |
| `Unifi.UnifiService.UpdatePortForward` | app/services/unifi.py:146-183 | Corrected: lists, then fails with not-found and sends no PUT when no rule has the id; otherwise sends the merged document and returns the reply's first document or `{}`; afterwards a session is open, a controller exists, and the service is connected iff it was ready or the login succeeded |
| `Unifi.UnifiService.UpdatePortForwardAsWritten` | app/services/unifi.py:159-165 | As written: always fails and never sends an update; afterwards a session is open, a controller exists, and the service is connected iff it was ready or the login succeeded |
| `Unifi.LoginReused` | app/services/unifi.py:31-36 | Once a request has logged in, a later one sends no login and succeeds even when a login would now fail; the log is that login and the two requests |
| `Unifi.ReconnectAsWritten` | app/services/unifi.py:43-67 | Connect, disconnect, connect, with every login accepted: as written the second connect fails |
| `Unifi.ReconnectCorrected` | app/services/unifi.py:43-67 | The same sequence with the session reopened: both connects succeed |
| `Consistency.DefaultSshRangeForwardable` | app/config.py:40-41 | The default SSH port range lies within the ports a request may forward |
| `Consistency.DefaultSizesAgree` | app/config.py:42-44 | The default sizes are ones a request may ask for and are a new machine record's sizes |
| `Consistency.PortDefaultsAgree` | app/models/port.py:19-21 | A new port-forward record's port and protocol defaults are the request defaults |
| `Consistency.ControllerDefaultsAgree` | app/services/unifi.py:69-77 | The controller service's keyword defaults are the request defaults 22 and `tcp`, and a rule posted with them is enabled, TCP, to port 22 |
| `Consistency.AcceptedProtocolsTranslate` | app/schemas/ports.py:14 | Every protocol a request may name is an explicit key of the controller table: tcp→tcp, udp→udp, both→tcp_udp |
| `Consistency.ValidatedSizesReachClone` | app/services/proxmox.py:60-62 | A validated body never gives a zero size, so a given size reaches the clone unchanged and an absent one becomes the default |
| `Consistency.ValidatedTableCapacity` | app/models/port.py:18 | A table of validated records holds at most 64512 forwards |

## Left out

- Remote systems. Proxmox, the UniFi controller and Discord are left out. Each request's outcome is a parameter, and the model records what is sent.
- Concurrency and waiting. The thread-pool wrapper and `asyncio.sleep` are left out; sleeps are counted. Two concurrent first uses of the controller connection are not modelled.
- `ProxmoxService.get_next_vmid`: one remote call whose reply is returned unchanged, so there is nothing to state beyond the request.
- `create_vm` and `resize_disk` are modelled as the requests they build (`CreateRequest`, `ResizeRequest`). The reply is returned unchanged.
- The controller's state across calls is not modelled. For example, that a created rule is later listed is not stated. Each listing is whatever the script returns.
- Logging. The error messages that `delete_port_forward` and `list_port_forwards` log are left out.
- The TLS context built in the controller service's constructor is left out. That includes its attribute writes on `False` when verification is off.
- The login request records host, username, port and site. The password is not recorded.
- `User.update_last_login`: a clock read and a database write.
- Timestamps are opaque values. `isoformat` is a tag (`IsoTime`) on the timestamp.
- Pydantic type coercion (for example `"12"` becoming `12`) is left out; bodies arrive already typed. So are reading settings from the environment and `.env`, `pydantic_model_creator`, and the plain response schemas that declare fields only.
- Store-enforced constraints not listed as properties are left out: uniqueness of a machine's hypervisor id and SSH port, uniqueness of a user's Discord id, and `CharField` lengths. Port-forward uniqueness is modelled as a table invariant, not as store behaviour.
- `Unifi.Translate`: lower-cases ASCII letters only. Python's `str.lower` also maps some non-ASCII characters to ASCII. Those are `K` (U+212A), which becomes `k`, and `İ` (U+0130), which becomes `i` plus a combining dot. Neither `k` nor `i` occurs in a table key, so the translation agrees on every input.
- `VmModel.StatusValue`: lower-cases ASCII only. Every member name is ASCII.
- `VmModel.ToDict`: `status` is the enum member, a `str` subclass equal to its value. The model stores the value.
- `Config.Validate`: models only the two validated fields. The fields without constraints are typed values.
- Patterns: the matchers assume pydantic's default engine, the `regex` crate, where `$` matches only at the end of the text.
- `PortSchemas.Scan`: reads only escapes, brackets and parentheses. A `]` right after `[` (a literal in both engines), POSIX classes, and the other ways a pattern can fail to compile are left out; neither `internal_ip` pattern uses them.
- `PortSchemas.ValidateCreateAsWritten`: the failed import takes every schema of the module with it (`PortForwardUpdate` and `PortForwardResponse` too); only the create body is modelled as refused, and the other schemas are modelled as corrected.

## Findings

| source | as written | input that shows it | evidently intended | confidence | as-written member | corrected member |
|---|---|---|---|---|---|---|
| app/models/user.py:80 | `last_login` is formatted whenever `created_at` is set | a user saved with only its required fields: `created_at` set, `last_login` None; `to_dict` raises AttributeError. The sign-in path (app/services/auth.py:113-120) always sets `last_login`, so such a user arises only from records created elsewhere (seed data, admin tools, direct `User.create` calls) and the failure is latent for the code shown | test `last_login` itself, as every other timestamp does | not executed; high | `UserModel.ToDictAsWrittenFailsForNewUser` | `UserModel.ToDict` |
| app/services/unifi.py:53 | `connect` reads `settings.unifi_site`, which `Settings` does not declare | any first use of the controller service: `connect` raises AttributeError before login, so every operation fails | a declared site setting | not executed; high | `Unifi.UnifiService.ConnectAsWritten` | `Unifi.UnifiService.Connect` |
| app/services/unifi.py:161 | `get_port_forward` is called without `await`, and the coroutine is passed to `dict` | any rule id: TypeError, and no update is sent | `await self.get_port_forward(rule_id)` | not executed; high | `Unifi.UnifiService.UpdatePortForwardAsWritten` | `Unifi.UnifiService.UpdatePortForward` |
| app/services/unifi.py:198 | `list_port_forwards` is iterated without `await` | any rule id: TypeError, and no listing request is sent | `for rule in await self.list_port_forwards()` | not executed; high | `Unifi.UnifiService.GetPortForwardAsWritten` | `Unifi.UnifiService.GetPortForward` |
| app/services/unifi.py:65-66 | `disconnect` closes the session but keeps it, and `connect` reuses any session that is not None | connect, disconnect, connect: the second login runs on a closed session and raises | reset the session to None on disconnect, or reopen a closed one | not executed; medium (depends on the HTTP client refusing a closed session) | `Unifi.ReconnectAsWritten` | `Unifi.ReconnectCorrected` |
| app/schemas/ports.py:13 | `^(?:[0-9{1,3}\.){3}[0-9]{1,3}$` leaves the first character class open past the group's `)`, so the pattern does not compile and building `PortForwardBase` raises when the module is imported | any create body, for example port 20000 to `10.0.0.1` with the defaults: no schema exists to accept it | `^(?:[0-9]{1,3}\.){3}[0-9]{1,3}$` | not executed; high | `PortSchemas.CreateAsWrittenRefusesEveryBody` | `PortSchemas.ValidateCreate` |
