# OPNsense backup, restore and readiness tools

A model of the Python tools that manage an OPNsense firewall: the configuration
backup/restore script, the UTM and development environment managers with their
readiness pollers, the `OPNsenseAPI` wrapper class and the API test script.

The network, the clock, the filesystem and the console are replaced by oracles and
plain state:

- **Appliance.** It is a function from everything sent so far and the new request
  to a reply. A reply is either a transport failure (a `RequestException`) or a
  response: status, reason, text, raw bytes, and what `response.json()` returns or
  raises.
- **Host.** The host the configuration script runs on is the class
  `OpnsenseConfig.Host`. It has directories (with their listing order), files (with
  their bytes), and a trace of every request and clock reading.
- **Poller.** The readiness pollers run on `Polling.Machine`. It has an integer
  clock in seconds, the start time of every probe, and an oracle for what each probe
  returns and how long it takes.

The modules follow the scripts:

| module | models |
|---|---|
| `PyValues` | Python values and their truthiness; `int()`, `str.lower()`, `in` on strings; `os.environ.get` |
| `Http` | requests, replies and `raise_for_status`; `Classify`, the five outcomes every wrapper maps |
| `Order` | Python's string order, which `sort(reverse=True)` uses |
| `Stamps` | the `%Y%m%d%H%M%S` stamp and the display form |
| `Catalog` | backup names, stamp extraction, the listing filter and sort, the operator's selection |
| `OpnsenseConfig` | `opnsense_config.py`: `api_call`, session probe, backup, restore, listing, command line, `main` |
| `Polling` | the wait loop both managers share |
| `UtmManage` | `opnsense-utm/manage.py` |
| `DevManage` | `opnsense-dev/manage.py` |
| `OpnsenseApi` | `opnsense_api.py` |
| `TestApi` | `test_api.py` |
| `ApiVariants` | the three API wrappers compared outcome by outcome |

Behaviour worth knowing:

- **Exit status of the configuration script.** `main` of `opnsense_config.py`
  returns without a status on every handled failure, so the process exits 0. It exits 1 only on an uncaught exception and 2 on
  a usage error. The model follows the code (`OpnsenseConfig.Host.RunScript`). As a
  result, `backup_config` of the UTM manager reports success even when the appliance
  cannot be reached (`UtmManage.BackupConfig`).
- **Decode errors in `OPNsenseAPI`.** The model assumes `requests` 2.27 or later.
  There, a body that does not decode raises an exception that is a
  `RequestException`, so `get` and `post` return the error dictionary for it.

## Model

| member | source | states |
|---|---|---|
| Http.Classify | archive/opnsense-utm/opnsense_config.py:75-83 | every reply is exactly one of: transport failure, 4xx/5xx status, empty 2xx body, a non-empty 2xx body that decodes (giving its value), and a non-empty 2xx body that does not decode (giving its text and the decode error) |
| Http.JsonPayload | archive/opnsense-utm/opnsense_config.py:73 | `json=None` sends no body; any other data is sent as a JSON body holding exactly that data |
| Http.ApiUrl | archive/opnsense-utm/opnsense_config.py:64 | the target is the base URL, then `/api/`, then the endpoint, and nothing else |
| PyValues.EnvGet | archive/opnsense-utm/opnsense_api.py:23-25 | `os.environ.get` gives a value exactly when the variable is set |
| PyValues.OrElse | archive/opnsense-utm/opnsense_api.py:23-25 | `a or b` is `a` when it is set and non-empty, and `b` otherwise |
| PyValues.NatToString | archive/opnsense-utm/opnsense_config.py:184 | `str(n)` of a natural number is a non-empty run of digits without a leading zero |
| PyValues.IntToString | archive/opnsense-utm/opnsense_config.py:184 | `str(i)` is a sign or digit followed by digits, ending in a digit |
| PyValues.ParseInt | archive/opnsense-utm/opnsense_config.py:229 | `int()` succeeds only on a string that holds a digit |
| PyValues.ParseIntSigned | archive/opnsense-utm/opnsense_config.py:229 | `int()` of a minus sign and a digit group, with no surrounding space, is the negated value of the group |
| PyValues.ParseIntUnsigned | archive/opnsense-utm/opnsense_config.py:229 | `int()` of a bare digit group is its value |
| PyValues.StripKeepsChar | archive/opnsense-utm/opnsense_config.py:229 | every character `strip()` keeps comes from the original string |
| PyValues.StripIntToString | archive/opnsense-utm/opnsense_config.py:229 | `strip()` leaves `str(i)` unchanged |
| PyValues.GroupValueOfNat | archive/opnsense-utm/opnsense_config.py:229 | the digits of `str(n)` form a valid digit group whose value is `n` |
| PyValues.Lower | archive/opnsense-utm/opnsense_config.py:225 | `lower()` keeps the length and lowers each character on its own |
| PyValues.ParseIntToString | archive/opnsense-utm/opnsense_config.py:229 | `int()` reads back every number the listing prints, so choice `str(i+1)` is read as `i+1` |
| PyValues.LowerIsQ | archive/opnsense-utm/opnsense_config.py:225 | `choice.lower() == 'q'` holds for exactly `q` and `Q` |
| PyValues.ContainsAt | archive/opnsense-dev/manage.py:96 | `sub in s` holds exactly when `sub` occurs at some position of `s` |
| PyValues.ContainsOccurs | archive/opnsense-dev/manage.py:96 | when `sub in s` holds, `sub` occurs at some position of `s` |
| PyValues.OccursContains | archive/opnsense-dev/manage.py:96 | an occurrence of `sub` at any position makes `sub in s` hold |
| Order.LexLeRefl | archive/opnsense-utm/opnsense_config.py:180 | every string is at most itself in Python order |
| Order.LexLeAntisym | archive/opnsense-utm/opnsense_config.py:180 | two strings each at most the other are equal |
| Order.LexLeTrans | archive/opnsense-utm/opnsense_config.py:180 | Python string order is transitive |
| Order.LexLeTotal | archive/opnsense-utm/opnsense_config.py:180 | any two strings are comparable |
| Order.LexLeBlocks | archive/opnsense-utm/opnsense_config.py:180 | strings that start with blocks of equal length compare by the first block, and by the rest when the blocks are equal |
| Order.HeadIsGreatest | archive/opnsense-utm/opnsense_config.py:180 | the head of a descending list is at least every element in it |
| Order.SortedUnique | archive/opnsense-utm/opnsense_config.py:180 | two non-increasing lists with the same elements are equal, so the sorted listing is determined by its contents |
| Order.TailOfSorted | archive/opnsense-utm/opnsense_config.py:180 | the tail of a sorted list is sorted and holds every element but the head |
| Order.InsertKeepsSorted | archive/opnsense-utm/opnsense_config.py:180 | inserting an element before the first one it is not below keeps a non-increasing list sorted |
| Stamps.Format14 | archive/opnsense-utm/opnsense_config.py:121 | the stamp is 14 digits |
| Stamps.Pad | archive/opnsense-utm/opnsense_config.py:121 | a zero-padded field has exactly its width and only digits |
| Stamps.ReadPad | archive/opnsense-utm/opnsense_config.py:188 | reading a padded field gives back its number |
| Stamps.PadRead | archive/opnsense-utm/opnsense_config.py:188 | a digit field is the padded form of the number it reads as |
| Stamps.DisplayForm | archive/opnsense-utm/opnsense_config.py:189 | the display form `YYYY-MM-DD HH:MM:SS` has 19 characters |
| Stamps.PadOrder | archive/opnsense-utm/opnsense_config.py:121 | zero-padded fields are equal and ordered as strings exactly as their numbers are |
| Stamps.Parse14 | archive/opnsense-utm/opnsense_config.py:188 | a stamp that parses has 14 characters and denotes a valid date and time |
| Stamps.ParseFormat | archive/opnsense-utm/opnsense_config.py:188 | every written stamp parses back to the moment it was written from |
| Stamps.FormatParse | archive/opnsense-utm/opnsense_config.py:188 | a stamp that parses is exactly the written form of what it parses to |
| Stamps.FormatOrder | archive/opnsense-utm/opnsense_config.py:180 | stamps compare as strings exactly as their moments compare in time |
| Catalog.BackupName | archive/opnsense-utm/opnsense_config.py:129 | every written name passes the listing filter |
| Catalog.RemoveAll | archive/opnsense-utm/opnsense_config.py:185 | `replace(p, "")` never lengthens the string, and a result as long as the input is the input itself |
| Catalog.RemoveAllUnchanged | archive/opnsense-utm/opnsense_config.py:185 | `replace(p, "")` leaves the string unchanged exactly when `p` does not occur in it, and otherwise shortens it by at least `len(p)` |
| Catalog.RemoveAllStep | archive/opnsense-utm/opnsense_config.py:185 | a string not starting with the pattern's first character keeps that character in front |
| Catalog.ExtractStamp | archive/opnsense-utm/opnsense_config.py:185 | the extracted stamp is never longer than the name |
| Catalog.ExtractStampPlain | archive/opnsense-utm/opnsense_config.py:185 | a name holding neither `config-` nor `.xml` is its own stamp |
| Catalog.RemoveAllSkips | archive/opnsense-utm/opnsense_config.py:185 | `replace` passes over a prefix that cannot start the pattern and leaves it unchanged |
| Catalog.RemoveAllAbsent | archive/opnsense-utm/opnsense_config.py:185 | `replace` leaves a string unchanged when no character of it can start the pattern |
| Catalog.ExtractBackupName | archive/opnsense-utm/opnsense_config.py:185 | removing every `config-` and `.xml` from a written name gives back its stamp, for stamps without `c` or `.` |
| Catalog.ExtractWrittenStamp | archive/opnsense-utm/opnsense_config.py:185 | extraction returns exactly the stamp the backup step wrote |
| Catalog.EntryLineOfBackup | archive/opnsense-utm/opnsense_config.py:185-189 | a written backup is listed with `(created YYYY-MM-DD HH:MM:SS)` of its own moment |
| Catalog.EntryLineWithoutDate | archive/opnsense-utm/opnsense_config.py:190-191 | a name whose stamp does not parse is listed bare |
| Catalog.EntryLineHead | archive/opnsense-utm/opnsense_config.py:186-191 | every logged line starts with the 1-based number, `. ` and the file name |
| Catalog.LogEntries | archive/opnsense-utm/opnsense_config.py:183-191 | the `enumerate` loop logs one line per entry, in list order, line `i` being EntryLine of entry `i` |
| Catalog.EnumeratedAt | archive/opnsense-utm/opnsense_config.py:186 | after `k` rounds of `enumerate`, round `i` has logged the line of entry `i` |
| Catalog.Filter | archive/opnsense-utm/opnsense_config.py:173 | everything kept starts with `config-` and ends with `.xml` |
| Catalog.FilterCounts | archive/opnsense-utm/opnsense_config.py:173 | each matching entry is kept as often as it is listed; any other entry never is |
| Catalog.FilterKeeps | archive/opnsense-utm/opnsense_config.py:173 | a name is kept if and only if it is listed and matches the convention |
| Catalog.FilterPermutation | archive/opnsense-utm/opnsense_config.py:173 | listings with the same entries give filters with the same entries |
| Catalog.InsertDesc | archive/opnsense-utm/opnsense_config.py:180 | one insertion step of the sort adds exactly the inserted element |
| Catalog.InsertDescSorted | archive/opnsense-utm/opnsense_config.py:180 | inserting into a non-increasing list keeps it non-increasing |
| Catalog.SortDesc | archive/opnsense-utm/opnsense_config.py:180 | the sort is a permutation of its input, in non-increasing string order |
| Catalog.InsertionPoint | archive/opnsense-utm/opnsense_config.py:180 | the insertion point lies after every element above the new one and at the first element not above it |
| Catalog.InsertStep | archive/opnsense-utm/opnsense_config.py:180 | inserting at the insertion point keeps the list sorted and adds exactly the new element |
| Catalog.SortNewestFirst | archive/opnsense-utm/opnsense_config.py:180 | the in-place sort ends with exactly the reference sort of its input |
| Catalog.CatalogContents | archive/opnsense-utm/opnsense_config.py:173-180 | the listing is non-increasing and holds each matching entry as often as the directory does, and nothing else |
| Catalog.Catalog | archive/opnsense-utm/opnsense_config.py:173-180 | the returned list is in non-increasing order, holds exactly the filtered entries with their multiplicities, and every name in it follows the naming convention |
| Catalog.CatalogIgnoresListingOrder | archive/opnsense-utm/opnsense_config.py:173-180 | the order `os.listdir` returns does not change the result, so listing twice gives the same sequence |
| Catalog.CatalogIsTheSortedFilter | archive/opnsense-utm/opnsense_config.py:173-180 | any non-increasing arrangement of the matching entries is the listing |
| Catalog.BackupNameOrder | archive/opnsense-utm/opnsense_config.py:129 | written names compare as strings exactly as their moments compare in time |
| Catalog.CatalogNewestFirst | archive/opnsense-utm/opnsense_config.py:173-180 | of two written backups in the listing, the earlier position holds the later moment |
| Catalog.ExampleOrder | archive/opnsense-utm/opnsense_config.py:180 | `config-20240101000000.xml` is above `config-20230101000000.xml` in string order |
| Catalog.CatalogOfTwo | archive/opnsense-utm/opnsense_config.py:173-180 | two matching names come out with the greater one first, whatever order the directory lists them in |
| Catalog.ExampleNames | archive/opnsense-utm/opnsense_config.py:173 | `config-20230101000000.xml` and `config-20240101000000.xml` pass the listing filter |
| Catalog.CatalogExample | archive/opnsense-utm/opnsense_config.py:173-180 | the 2024 backup is listed before the 2023 one |
| Catalog.SelectionIsListed | archive/opnsense-utm/opnsense_config.py:228-231 | a chosen path always joins the output directory with a listed name |
| Catalog.SelectBackup | archive/opnsense-utm/opnsense_config.py:224-237 | the answer cancels exactly when it lowers to `q`; a chosen path comes from an answer that `int()` reads as a number from 1 to the list's length, and joins the directory with that entry |
| Catalog.SelectByAnswer | archive/opnsense-utm/opnsense_config.py:228-237 | an answer other than `q` that `int()` reads as `n` in 1..len, whatever its spaces, sign or leading zeros, picks entry `n-1`; one read as another number is out of range; one `int()` rejects is not a number |
| Catalog.QuitCancels | archive/opnsense-utm/opnsense_config.py:224-226 | `q` and `Q` cancel the restore |
| Catalog.SelectByNumber | archive/opnsense-utm/opnsense_config.py:228-231 | answering `i+1` chooses entry `i` of the listing |
| Catalog.SelectRejects | archive/opnsense-utm/opnsense_config.py:228-237 | a non-number or an out-of-range number chooses nothing |
| Catalog.JoinedPathIsWrittenPath | archive/opnsense-utm/opnsense_config.py:231 | for a directory without a trailing `/`, the joined path is the path the backup step writes |
| OpnsenseConfig.ApiRequest | archive/opnsense-utm/opnsense_config.py:64-73 | only GET and POST send a request, with the verb named; every request goes to `url/api/endpoint` with the session's credentials; GET has no body and a 30 s timeout; a POST with files uploads them with 120 s, and otherwise sends `json=data` (no body for `None`) with 30 s |
| OpnsenseConfig.ApiResult | archive/opnsense-utm/opnsense_config.py:75-98 | failure and 4xx/5xx give `None`; an empty body gives `{}`; a decodable body gives its value; any other body gives its raw text |
| OpnsenseConfig.TruthyResultHasBody | archive/opnsense-utm/opnsense_config.py:78-83 | a truthy result comes only from a 2xx reply with a non-empty body, so an empty 2xx body counts as failure |
| OpnsenseConfig.DownloadRequest | archive/opnsense-utm/opnsense_config.py:125 | the download is a GET with the session's credentials, no body and a 30 s timeout, to `url/api/core/backup/download/` followed by the remote name |
| OpnsenseConfig.Basename | archive/opnsense-utm/opnsense_config.py:150 | the uploaded name is the end of the path that holds no `/` and is preceded by a `/` or by nothing, so it is the part after the last `/` |
| OpnsenseConfig.Host.constructor | archive/opnsense-utm/opnsense_config.py:100-193 | a host starts with the given directories and files, which do not overlap, and nothing sent |
| OpnsenseConfig.Host.Send | archive/opnsense-utm/opnsense_config.py:66-73 | one request is recorded, and its reply is the appliance's answer given everything sent before |
| OpnsenseConfig.Host.Now | archive/opnsense-utm/opnsense_config.py:121 | one clock reading is recorded, and it is the clock's answer given everything before it |
| OpnsenseConfig.Host.CreateSession | archive/opnsense-utm/opnsense_config.py:47-60 | one GET of `core/system/info` with a 10 s timeout; the session exists exactly when it succeeds |
| OpnsenseConfig.Host.ApiCall | archive/opnsense-utm/opnsense_config.py:62-98 | at most one request, exactly `ApiRequest`'s, and the result `ApiResult` of its reply |
| OpnsenseConfig.WriteFile | archive/opnsense-utm/opnsense_config.py:129-131 | writing `dir/name` stores the bytes under that path, keeps every directory and every other listing, adds the name to the directory's listing unless it is there, and loses no name |
| OpnsenseConfig.SaveRun | archive/opnsense-utm/opnsense_config.py:121-138 | the download step reads the clock, then sends exactly the GET of `download/<filename>` and nothing else; it never crashes; it saves exactly when that GET succeeds and `output_dir/config-<stamp>.xml` is not a directory, and the file then holds the downloaded bytes unchanged at that path, its name joining the listing; otherwise no file changes; every other listing is kept and the host stays well formed |
| OpnsenseConfig.BackupRun | archive/opnsense-utm/opnsense_config.py:100-138 | a backup keeps the host well formed and every directory, writes no file unless it saves the backup, and then only that file |
| OpnsenseConfig.BackupRunAborts | archive/opnsense-utm/opnsense_config.py:103-116 | `os.makedirs` failing crashes with nothing sent; a falsy creation result, or a dictionary without a truthy `filename`, fails after the POST alone, with no download and no file written; a truthy non-dictionary crashes after the POST |
| OpnsenseConfig.BackupRunDownloads | archive/opnsense-utm/opnsense_config.py:113-131 | after a truthy `filename`, the log gets exactly the clock reading and the GET of `download/<filename>`; the backup is saved exactly when that GET succeeds and the target is not a directory, and the file holds the downloaded bytes |
| OpnsenseConfig.BackupRunFrame | archive/opnsense-utm/opnsense_config.py:100-138 | a backup leaves every other directory's listing as it was and only appends to the log |
| OpnsenseConfig.SavedBackupIsNamed | archive/opnsense-utm/opnsense_config.py:121-131 | a saved backup lands at `output_dir/config-<stamp>.xml` for the clock reading after the creation request, and its name joins the directory's listing, which loses nothing |
| OpnsenseConfig.SavedBackupIsListed | archive/opnsense-utm/opnsense_config.py:129-131 | after a saved backup, `list_backups` of the output directory lists it, next to every backup listed before |
| OpnsenseConfig.RestoreRequestIsUpload | archive/opnsense-utm/opnsense_config.py:149-153 | the restore request is a multipart POST to `core/backup/restore` of the file's bytes under its base name, with a 120 s timeout |
| OpnsenseConfig.Host.Backup | archive/opnsense-utm/opnsense_config.py:100-138 | the result and the new directories, files and log are exactly those of BackupRun from the old host state, and the host stays well formed |
| OpnsenseConfig.Host.SaveDownload | archive/opnsense-utm/opnsense_config.py:121-138 | the result and the new directories, files and log are exactly those of SaveRun from the old host state, and the host stays well formed |
| OpnsenseConfig.Host.Restore | archive/opnsense-utm/opnsense_config.py:140-165 | a missing path or a directory gives `False` with no request; otherwise one multipart upload of the file's bytes under its base name, and `True` exactly when the result is truthy |
| OpnsenseConfig.Host.ListBackups | archive/opnsense-utm/opnsense_config.py:167-193 | a missing directory gives `False`; a file crashes; otherwise the result is the sorted filter, with one logged line per entry |
| OpnsenseConfig.Host.RunScript | archive/opnsense-utm/opnsense_config.py:195-241 | the exit status is 2 exactly on a usage error, which changes nothing; only `backup` writes; `list` sends nothing and exits 1 exactly when the directory is a file; a failed connection exits 0 after the probe alone; `backup` after a good probe is BackupRun from the host the probe left, exiting 1 exactly when it crashes; `restore --file F` uploads exactly F when it is a file; without `--file` the entry the answer picks is uploaded when it is a file, and without a pick only the probe goes out, exiting 1 exactly when the directory is a file |
| OpnsenseConfig.ParseRestoreFile | archive/opnsense-utm/opnsense_config.py:196-199 | `restore --file F` parses to the restore action with file F and the default directory |
| OpnsenseConfig.ParseArgs | archive/opnsense-utm/opnsense_config.py:196-201 | a successful parse takes its action from a word of the command line, and a given file or output directory is a word of the command line too |
| OpnsenseConfig.Scan | archive/opnsense-utm/opnsense_config.py:196-201 | the same for the left-to-right pass, from the words and option values already seen |
| OpnsenseConfig.ParseRejectsSecondPositional | archive/opnsense-utm/opnsense_config.py:196-201 | any two-word command line without `--file` or `--output-dir` in place is a usage error |
| Polling.Machine.Probe | archive/opnsense-utm/manage.py:31 | a probe starts at the current time, is recorded, and advances the clock by the time it took |
| Polling.Machine.constructor | archive/opnsense-utm/manage.py:28 | a poller starts at the given time with no probes |
| Polling.Machine.Sleep | archive/opnsense-utm/manage.py:40 | sleeping advances the clock by the given seconds and probes nothing |
| Polling.Machine.WaitUntil | archive/opnsense-utm/manage.py:28-43 | the loop ends in exactly the state and with exactly the result of the reference run `Run` |
| Polling.RunShape | archive/opnsense-utm/manage.py:28-40 | probes start only before the deadline and at least 5 s apart; the first starts at once; a failed run ends at or after the deadline |
| Polling.RunSucceedsOnAccepted | archive/opnsense-utm/manage.py:30-36 | a run succeeds if and only if its last probe returned an accepted status; failed requests never end it |
| Polling.RunProbeBound | archive/opnsense-utm/manage.py:38-40 | a run that starts w seconds before its deadline probes at most ⌈w/5⌉ times |
| Polling.MaxWaitProbes | archive/opnsense-utm/manage.py:22 | the 180 s wait probes at most 36 times |
| Polling.RunNeverAccepted | archive/opnsense-utm/manage.py:42-43 | if no probe can be accepted, the result is `False` |
| Polling.RunMonotone | archive/opnsense-dev/manage.py:62 | a poller that accepts more statuses succeeds whenever one that accepts fewer does |
| UtmManage.CheckOpnsenseAvailability | archive/opnsense-utm/manage.py:24-43 | the poll for 200 or 302 within 180 s |
| UtmManage.ReadyOnFirstProbe | archive/opnsense-utm/manage.py:32-34 | a first answer of 200 or 302 succeeds after one probe |
| UtmManage.AvailabilityOutcome | archive/opnsense-utm/manage.py:28-43 | `True` if and only if the last probe answered 200 or 302; `False` only after 180 s; every probe starts within the window |
| UtmManage.BackupArgvParses | archive/opnsense-utm/manage.py:61 | the backup child runs the backup action into `backups` |
| UtmManage.RestoreArgvAsWrittenRejected | archive/opnsense-utm/manage.py:72-73 | with a file name, the child's command line is a usage error for every name the modelled parser does not read as an option |
| UtmManage.RestoreArgvParses | archive/opnsense-utm/manage.py:72-75 | with `--file`, the child restores the named file; without a name it runs the interactive selection |
| UtmManage.RestoreArgvOptionRejected | archive/opnsense-utm/opnsense_config.py:197-201 | a file name that argparse takes for an option is refused behind `--file` as well |
| UtmManage.BackupConfig | archive/opnsense-utm/manage.py:56-65 | a failed connection still reports success and changes nothing but the log; after a good probe the host ends as BackupRun into `backups` leaves it, and the call reports success exactly when that backup does not crash |
| UtmManage.RestoreConfigAsWritten | archive/opnsense-utm/manage.py:67-79 | directories and files never change; with a file name: `False`, and the host is left exactly as it was; without one, the child's interactive restore from `backups` (InteractiveRestore): success after a failed probe, the picked entry uploaded when it is a file, and failure exactly when nothing is picked and `backups` is a file |
| UtmManage.RestoreConfig | archive/opnsense-utm/manage.py:67-79 | directories and files never change; with a file name: `True`, and the child uploads exactly that file after a successful probe; without one, the same interactive restore from `backups` as above |
| UtmManage.VerifyApiAccessAsWrittenPassesUnreachable | archive/opnsense-utm/manage.py:45-54 | against an appliance that refuses every connection, the test fails yet the check passes |
| UtmManage.VerifyApiAccess | archive/opnsense-utm/manage.py:45-54 | the check passes if and only if the connection test passes |
| DevManage.RunCommand | archive/opnsense-dev/manage.py:24-39 | `None` exactly on a non-zero exit; stdout when capturing; `True` otherwise |
| DevManage.RunCommandTruth | archive/opnsense-dev/manage.py:51-53 | without capture the result is truthy exactly on success; with capture, silent success is falsy |
| DevManage.StartEnvironment | archive/opnsense-dev/manage.py:41-79 | a failed `up` gives `False` with no probe; otherwise the 180 s poll for 200 |
| DevManage.StopEnvironment | archive/opnsense-dev/manage.py:81-85 | the result is truthy exactly when `docker-compose down` exits 0 |
| DevManage.RedirectIsNotReady | archive/opnsense-dev/manage.py:62 | a successful wait always ended on a probe that answered 200, so a 302 on any probe never ends it with success |
| DevManage.ContainerUpMeans | archive/opnsense-dev/manage.py:95-96 | the container counts as running exactly when `docker ps` succeeds and its output contains `Up` |
| DevManage.ReportOf | archive/opnsense-dev/manage.py:100-107 | the interface is accessible exactly on 200 and unreachable exactly on a request failure |
| DevManage.CheckStatus | archive/opnsense-dev/manage.py:87-109 | one probe when the container is up, none otherwise |
| DevManage.Dispatch | archive/opnsense-dev/manage.py:123-147 | exits 0 if and only if start or stop succeeds; `status` and `help` fall through; everything else exits 1; only `start` and `status` probe |
| DevManage.CommandsIgnoreCase | archive/opnsense-dev/manage.py:128 | commands are matched after lower-casing |
| OpnsenseApi.Configure | archive/opnsense-utm/opnsense_api.py:21-28 | refused exactly when the key or secret, from argument or environment, is missing or empty; arguments win over the environment; the URL defaults to `https://192.168.1.1` |
| OpnsenseApi.ArgumentsOverrideEnvironment | archive/opnsense-utm/opnsense_api.py:23-25 | with all three arguments given, the environment plays no part |
| OpnsenseApi.ErrorDict | archive/opnsense-utm/opnsense_api.py:49 | the error result is a non-empty, hence truthy, dictionary |
| OpnsenseApi.ApiResult | archive/opnsense-utm/opnsense_api.py:43-49 | a decodable 2xx body gives its value; a failure, a 4xx/5xx, a non-JSON or an empty body gives the error dictionary with the exception's text |
| OpnsenseApi.PingData | archive/opnsense-utm/opnsense_api.py:96-99 | the ping body has exactly the keys `host` and `count` |
| OpnsenseApi.Client.constructor | archive/opnsense-utm/opnsense_api.py:21-38 | a client holds the settled address and credentials and has sent nothing |
| OpnsenseApi.Client.Send | archive/opnsense-utm/opnsense_api.py:40-60 | one request is recorded, and the result is `ApiResult` of the appliance's reply |
| OpnsenseApi.Client.Open | archive/opnsense-utm/opnsense_api.py:21-31 | a refused configuration gives the `ValueError` and no client; otherwise a new client with the settled fields and no requests sent |
| OpnsenseApi.Client.GetRequest | archive/opnsense-utm/opnsense_api.py:42-44 | `get` sends to `url/api/endpoint` with no body and no timeout |
| OpnsenseApi.Client.PostRequest | archive/opnsense-utm/opnsense_api.py:53-55 | `post` sends `json=data` to `url/api/endpoint` with no timeout |
| OpnsenseApi.Client.Get | archive/opnsense-utm/opnsense_api.py:40-49 | exactly one GET request; the result is `ApiResult` of its reply |
| OpnsenseApi.Client.Post | archive/opnsense-utm/opnsense_api.py:51-60 | exactly one POST request; the result is `ApiResult` of its reply |
| OpnsenseApi.Client.GetFirmwareStatus | archive/opnsense-utm/opnsense_api.py:62-64 | one GET of `core/firmware/status` |
| OpnsenseApi.Client.GetSystemStatus | archive/opnsense-utm/opnsense_api.py:66-68 | one GET of `core/system/status` |
| OpnsenseApi.Client.GetInterfaces | archive/opnsense-utm/opnsense_api.py:70-72 | one GET of `interfaces/overview/interfacesInfo` |
| OpnsenseApi.Client.GetFirewallRules | archive/opnsense-utm/opnsense_api.py:74-76 | one GET of `firewall/filter/searchRule` |
| OpnsenseApi.Client.GetFirewallAliases | archive/opnsense-utm/opnsense_api.py:78-80 | one GET of `firewall/alias/searchItem` |
| OpnsenseApi.Client.BackupConfig | archive/opnsense-utm/opnsense_api.py:82-84 | one GET of `core/backup/download` |
| OpnsenseApi.Client.GetGateways | archive/opnsense-utm/opnsense_api.py:86-88 | one GET of `routes/gateway/status` |
| OpnsenseApi.Client.GetDhcpLeases | archive/opnsense-utm/opnsense_api.py:90-92 | one GET of `dhcp/leases/searchLease` |
| OpnsenseApi.Client.PingHost | archive/opnsense-utm/opnsense_api.py:94-100 | one POST of `{host, count}` to `diagnostics/interface/ping`, with a count of 3 by default |
| TestApi.Configure | archive/opnsense-utm/test_api.py:19-21 | unset variables fall back to the default URL and the placeholder credentials; set ones, even empty ones, are used as they are |
| TestApi.ApiRequest | archive/opnsense-utm/test_api.py:28-36 | only GET and POST send a request, to `url/api/endpoint` with a 10 s timeout; GET has no body; POST sends `json=data` |
| TestApi.ApiResult | archive/opnsense-utm/test_api.py:38-56 | a decodable body gives its value and an empty body `{}`; everything else, a non-JSON body included, gives `None` |
| TestApi.TestApiConnection | archive/opnsense-utm/test_api.py:58-72 | passes if and only if the info GET succeeds with a body that decodes to a truthy value |
| TestApi.ScriptExitStatus | archive/opnsense-utm/test_api.py:74-75 | the corrected script exits 0 if and only if the connection test passes |
| ApiVariants.AgreeOnJson | archive/opnsense-utm/opnsense_api.py:46 | on a decodable body all three wrappers return the decoded value |
| ApiVariants.DifferOnEmptyBody | archive/opnsense-utm/test_api.py:41 | an empty 2xx body gives `{}` in both `api_call`s but a truthy error dictionary in the class |
| ApiVariants.DifferOnNonJson | archive/opnsense-utm/opnsense_config.py:79-82 | a non-JSON body gives the raw text in the tool, `None` in the test script and the error dictionary in the class |
| ApiVariants.DifferOnFailure | archive/opnsense-utm/opnsense_config.py:85-98 | a failure or 4xx/5xx gives `None` in both `api_call`s and a dictionary with status `error` in the class |
| ApiVariants.CallsAgreeExceptOnText | archive/opnsense-utm/test_api.py:41 | the two `api_call`s agree on every reply except a non-JSON body |
| ApiVariants.ErrorShapeIsAmbiguous | archive/opnsense-utm/opnsense_api.py:46-49 | the class cannot tell an unreachable appliance from one that answers with the same error dictionary |
| ApiVariants.TruthinessMeansSuccessOnlyInTheTool | archive/opnsense-utm/opnsense_api.py:47-49 | a truthy `api_call` result means a successful request, while the class's result is truthy on every failure |

## Left out

- Stamps.Parse14: accepts only the fixed-width 14-digit form. `strptime` also accepts unpadded fields and a space before a number, which no written name contains. It also reads only ASCII digits, while `strptime`'s `\d` matches other Unicode decimal digits too, so a name whose stamp uses such digits is listed here without its date.
- Stamps.Format14: only years 1000 to 9999 are written (the clock is a `Reading`). `%Y` of an earlier year is not modelled.
- PyValues.Render: `str()` of a list or a dictionary used as a remote file name renders as the empty string, not as Python's display of it.
- PyValues.Lower: ASCII only. For the words compared here (`q`, `start`, `stop`, `status`, `help`), no non-ASCII character lowers into one of their letters.
- PyValues.ParseInt: only ASCII digits are read (PyValues.IsDigit). Python's `int()` also accepts other Unicode decimal digits, such as `int("٣") == 3`, so an answer to the selection prompt written in such digits is rejected here where the script would accept it.
- PyValues.Value: there are no floating-point numbers. A JSON body such as `0.0`, which Python treats as false, and a float used as a remote file name (rendered by `str()` into the download URL) cannot be expressed.
- PyValues.IsSpace: the whitespace `int()` strips is the ASCII set. Unicode spaces are not modelled.
- OpnsenseConfig.ParseArgs: models only this script's parser: the positional action, `--file`, `--output-dir`, and option-like tokens. It leaves out abbreviated options, `--opt=value`, `--`, `-h` and the help output. So a file name such as `-h` or `--file=F`, passed positionally by `restore_config`, is not covered: argparse would print help and exit 0, or restore `F`.
- Host paths are flat strings: there is no normalisation of `//`, `.` or trailing `/`. A backup directory's own entries are its listing; directories nested in it are not. Permission and disk errors are not modelled.
- `get_api_config` (environment and prompt): the URL and credentials are given to `Host.RunScript`. The operator's answer to the selection prompt is given as a string.
- Logging, `print`, the progress dots and all message text except the error dictionary's are left out. So is the log file.
- The transport itself (sessions, TLS verification, warning suppression) is left out. JSON decoding is left out: a response states what `json()` returns or raises.
- OpnsenseApi.ApiResult: the URL in an HTTP error message is the request's URL. A redirect that changes it is not modelled.
- Floating-point time: the clock counts whole seconds, and `time.sleep(5)` advances it by exactly 5.
- Shell commands and child processes: each is an oracle giving an exit status and output. The configuration script run as a child is modelled by `Host.RunScript`. The `docker-compose`, `docker ps` and `mkdir` work is not modelled.
- The `main` dispatch of `opnsense-utm/manage.py` is left out: it only calls the modelled functions. So is its `__main__`.
- The `__main__` block of `opnsense_api.py` is left out: it only prints.
- `init_repo.py` is not part of this model: it only writes fixed files.

## Findings

| source | as written | input that shows it | evidently intended | confidence | as-written member | corrected member |
|---|---|---|---|---|---|---|
| archive/opnsense-utm/manage.py:72-73 | `restore_config` passes the file name as a second positional argument, but the configuration script accepts a file only behind `--file` (opnsense_config.py:197-198) | `restore_config("backups/config-20240101000000.xml")`: the child's command line `restore backups/config-20240101000000.xml` is a usage error (exit 2), so nothing is uploaded and the call returns `False` | `restore --file <name>` | not executed; high | UtmManage.RestoreArgvAsWrittenRejected | UtmManage.RestoreArgvParses |
| archive/opnsense-utm/test_api.py:74-75 | the script discards the result of `test_api_connection` and always exits 0, so `verify_api_access` (manage.py:45-54) never takes its failure branch | an appliance that refuses every connection: the test prints "API connection failed!" and `verify_api_access` returns `True` | exit non-zero when the test fails, so that the check fails with it | not executed; medium | UtmManage.VerifyApiAccessAsWrittenPassesUnreachable | UtmManage.VerifyApiAccess |
