# MMS SDC client and loader, modelled in Dafny

This project models the core of the `mms` package. The package finds, downloads and loads data files of
NASA's Magnetospheric Multiscale (MMS) mission from the Science Data Center (SDC) or from a local mirror.
The model covers four files.

- **`mms_sdc_api_client.py`**: the `MMS_SDC_API_CLIENT` selector object.
  - Its attribute hooks: site, data_type, anc_product, level, files, start_date and end_date.
  - The request it builds: `Query`, `url`, `Get` and the `check_response` log-in retry.
  - Local naming: `name2path`, `ancillaryname2path`, `ParseFileNames` and `remote2localnames`.
  - `Local_FileNames`, `Search`, `Download` (with its attribute snapshot and restore), and `DownloadFile` with its cleanup of a failed transfer.
- **`mms_utils.py`**: `construct_path`, `parse_filename` and `filter_time`.
- **`mms_load_data.py`**: `mms_load_data`.
  - The normalisation of its arguments.
  - The client loop over data types, levels and descriptors.
  - The sort of the paths and the merge loop over the loaded CDF files.
  - The `None` returns and the final time clip.
  - `mms_data_time_clip`.
- **`load_datafile.py`**: the dispatch on the file name, and the header parser of ancillary files.

## Modules

| file | module | contents |
|---|---|---|
| `base.dfy` | `Base` | `Result`/`Option` wrappers, the Python error kinds, and list helpers (`MapAll`, `Flatten`, `ConcatMap`) |
| `strings.dfy` | `Strings` | `str.split`/`join`/`strip`/`lower`, string order and `sorted`, `os.path.basename`/`join`/`dirname`/`splitext`, zero-padded numbers |
| `dates.dfy` | `Dates` | `datetime` values, their order, `timedelta(days=1)`, `%j`, and the `strftime`/`strptime` layouts the package uses |
| `dicts.dfy` | `Dicts` | insertion-ordered Python dictionaries: `d[k] = v`, `update`, `len` |
| `strptime.dfy` | `Strptime` | CPython's `strptime` matching for the layouts the package reads (variable-width numeric fields, alternatives tried in order with backtracking) and the matching `strftime` writers |
| `mms_utils.dfy` | `MmsUtils` | the loosely typed argument values (`Arg`) the Python code passes around, `construct_path`, `parse_filename`, `filter_time` |
| `sdc_client.dfy` | `SdcClient` | the client's pure parts: setter hooks, `Query`, name-to-path rules, `Local_FileNames` |
| `client.dfy` | `SdcApi` | the client class (`Client`), the disk it writes (`Disk`), `check_response`, `Search`, `Download`, `DownloadFile` |
| `load_datafile.dfy` | `LoadDatafile` | `load_datafile` dispatch and the ancillary header reader |
| `merge.dfy` | `Merge` | the merge loop of `mms_load_data` over CDF loads |
| `time_clip.dfy` | `TimeClip` | `mms_data_time_clip`, with the data dictionary as a class (`DataDict`) clipped in place |
| `load_data.dfy` | `LoadData` | `mms_load_data`: normalisation, client loop, sort, load, merge, `None` returns, clip |

Three things are inputs to the model rather than parts of it: the file system, the SDC's replies and the file loaders. Each is a value or a function parameter.

- The file system is a set of existing paths, kept by the `Disk` object; a directory listing is a function.
- The SDC's replies are functions from the request to a reply.
- The CDF loader is a function from a path to its result. An ancillary file's lines are a sequence of strings.

Where Python's `set` iteration order matters (in `filter_time`), the methods return the order they used as a ghost value. Their results are proved equal to a specification function applied to that order. Lemmas then state what holds for every order.

## Model

| member | source | states |
|---|---|---|
| SdcClient.StoredDate | mms/mms_sdc_api_client.py:630-676 | the date setters store only real datetimes: a datetime or None is kept, and a string is either read into a datetime or kept as it was (SetterReads gives the layouts read) |
| SdcClient.SetterReads | mms/mms_sdc_api_client.py:638-651 | the setter reads an ISO datetime followed by anything, and a bare ISO date as midnight |
| SdcClient.StoresIso | mms/mms_sdc_api_client.py:641-643 | a string of at most nineteen characters that `%Y-%m-%dT%H:%M:%S` reads is stored as the datetime read |
| SdcClient.StoresIsoDate | mms/mms_sdc_api_client.py:641-648 | a string that the ISO date-time layout rejects and `%Y-%m-%d` reads is stored as that day at midnight |
| SdcClient.SetterReadsNarrowedTime | mms/mms_sdc_api_client.py:641-643 | an ISO date and time with any of its fields written without the leading zero is stored as the datetime it names |
| SdcClient.SetterReadsNarrowedDate | mms/mms_sdc_api_client.py:645-648 | an ISO date with its month or day written with one digit is stored as that day at midnight |
| SdcClient.SetterReadsShortDate | mms/mms_sdc_api_client.py:645-648 | '2020-1-5' is stored as 2020-01-05 00:00:00 |
| SdcClient.DateTextReadBack | mms/mms_sdc_api_client.py:630-636 | a stored datetime passed through the getter and read back by filter_time's `strptime` is the datetime itself; None gives TypeError; an unread string gives ValueError |
| SdcClient.SiteFor | mms/mms_sdc_api_client.py:617-628 | the site setter stores only 'sitl' or 'public' |
| SdcClient.LevelSite | mms/mms_sdc_api_client.py:122-126 | the level hook's site is what the site setter makes of 'public' for None, l2 and l3, and of 'private' for any other level |
| SdcClient.SiteIdempotent | mms/mms_sdc_api_client.py:617-628 | assigning back the site the setter stored selects the same site |
| SdcClient.SiteAccepts | mms/mms_sdc_api_client.py:617-628 | the site setter succeeds exactly on its six spellings; None and lists fail with ValueError |
| SdcClient.DataTypeFor | mms/mms_sdc_api_client.py:111-113 | the data_type hook accepts exactly the strings ancillary, hk and science and stores them unchanged; another string is a ValueError, a non-string a TypeError |
| SdcClient.QueryContents | mms/mms_sdc_api_client.py:504-540 | Query has one key per attribute that is not None; strings pass as they are and lists are joined with ','; start_date is the start's `%Y-%m-%d` and end_date the corrected end day |
| SdcClient.QueryLookup | mms/mms_sdc_api_client.py:504-540 | looking up a key of the query gives the value the attribute supplied |
| SdcClient.QueryKeysDistinct | mms/mms_sdc_api_client.py:504-540 | no query key occurs twice |
| SdcClient.PairsOrder | mms/mms_sdc_api_client.py:504-540 | the query's pairs come in the dictionary's insertion order |
| SdcClient.QueryFails | mms/mms_sdc_api_client.py:510-516 | Query fails exactly when a date attribute holds an unread string, or an end comes with no start datetime (AttributeError) |
| SdcClient.QueryEndDay | mms/mms_sdc_api_client.py:512-516 | the end day sent is the earliest midnight after the start's day and not before the end, so that the SDC's exclusive end day still covers the interval |
| SdcClient.Name2Path | mms/mms_sdc_api_client.py:399-434 | name2path fails with IndexError exactly when the name has fewer than three '_'-fields |
| SdcClient.Name2PathLayout | mms/mms_sdc_api_client.py:399-434 | a science file goes into the directory construct_path gives for its fields, which is also the one it gives for the file's start day |
| SdcClient.Name2PathBasename | mms/mms_sdc_api_client.py:399-434 | a plain file name is the base name of its local path |
| SdcClient.AncillaryLayout | mms/mms_sdc_api_client.py:436-467 | the ancillary directory is lower case whatever the case of the root, and the file name is appended unchanged |
| SdcClient.AncillaryPlainLayout | mms/mms_sdc_api_client.py:436-467 | on plain components the ancillary path is lower(root/ancillary/fields) + '/' + name |
| SdcClient.ParseFileNames | mms/mms_sdc_api_client.py:469-501 | a six-field name gets a seventh field ('' inserted for the missing descriptor); other names keep their field count |
| SdcClient.ParseFileNamesAgrees | mms/mms_sdc_api_client.py:469-501 | on six- and seven-field names ParseFileNames gives the fields of parse_filename, except that the version keeps its 'v' |
| SdcClient.Remote2LocalNames | mms/mms_sdc_api_client.py:543-567 | every remote name maps to the data root joined with its path pieces from the third on |
| SdcClient.LocalNameKeepsBasename | mms/mms_sdc_api_client.py:543-567 | the local name keeps the remote file name |
| SdcClient.PresentIndices | mms/mms_sdc_api_client.py:591-594 | the indices of the local names that exist on disk, in order |
| SdcClient.AbsentIndices | mms/mms_sdc_api_client.py:595-599 | the indices whose local name does not exist, in order |
| SdcClient.PresenceCount | mms/mms_sdc_api_client.py:591-599 | every index is present or absent, never both |
| SdcClient.PresenceSplit | mms/mms_sdc_api_client.py:591-599 | Search keeps, in listing order, exactly the local names that exist and exactly the remote names whose local name does not; together they account for every listed file |
| SdcClient.DayList | mms/mms_sdc_api_client.py:328-332 | the day loop of Local_FileNames returns the day list of its specification function |
| Dates.DaysContents | mms/mms_sdc_api_client.py:328-332 | a successful day list holds the start's day and each following day up to the last one not after the end |
| Dates.DaysOverflow | mms/mms_sdc_api_client.py:328-332 | the day loop fails with OverflowError exactly when it reaches 9999-12-31 without passing the end |
| SdcClient.SearchDirs | mms/mms_sdc_api_client.py:340-359 | the loop over path patterns returns, in pattern order, the files found in each existing directory, or the error of the first directory `os.chdir` cannot enter for a reason other than its absence; every directory is resolved from the starting directory |
| SdcClient.GlobAllMembers | mms/mms_sdc_api_client.py:341-357 | the search fails exactly when a path's directory refuses to be entered, with that directory's error; when it succeeds, a file is reported exactly when the directory search lists it for the directory and pattern of one of the paths |
| SdcClient.AbsoluteAsWritten | mms/mms_sdc_api_client.py:341-357 | with absolute directories, the loop as written (each `os.chdir` from wherever the previous one left) finds exactly what the search from the starting directory finds, errors included |
| SdcClient.RelativeRootMisses | mms/mms_sdc_api_client.py:341-357 | with a relative directory x shared by two patterns, the loop as written reports only the first pattern's file, while the search from the starting directory reports both |
| SdcClient.PatternDir | mms/mms_sdc_api_client.py:336-351 | the search pattern lies in the layout directory construct_path gives without `files`, and its name part is the file-name pattern |
| SdcClient.SearchedDaysPlain | mms/mms_sdc_api_client.py:320-332 | every day Local_FileNames searches is a plain eight-character component |
| SdcClient.PatternFilesLayout | mms/mms_sdc_api_client.py:336-357 | the search finds files only in the layout directory of a combination, with that combination's name pattern |
| SdcClient.LocalFilesLayout | mms/mms_sdc_api_client.py:305-359 | on plain values every file Local_FileNames reports sits in the MMS layout directory of a selector combination and matches its name pattern |
| SdcApi.CheckOutcomeCases | mms/mms_sdc_api_client.py:149-196 | check_response succeeds exactly on a 200 reply, or on a 401 reply when one of at most three re-requests succeeds, and then returns that reply |
| SdcApi.FirstSuccessIs | mms/mms_sdc_api_client.py:166-190 | the retry loop stops at the first attempt that succeeds |
| SdcApi.AssignFilesClears | mms/mms_sdc_api_client.py:114-121 | assigning a file list, even an empty one, sets sc, instr, mode, level, optdesc and version to None and the site to public |
| SdcApi.RestoreLoopResult | mms/mms_sdc_api_client.py:277-279 | Download's restore loop gives the same state whatever state it starts from |
| SdcApi.RestoreRecovers | mms/mms_sdc_api_client.py:247-279 | after the restore, a selector chosen by attributes gets back its sc, instr, mode, level, optdesc, version and file list |
| SdcApi.RestoreResetsSite | mms/mms_sdc_api_client.py:247-279 | the site after a restore is the one the level derives, which can differ from a site chosen explicitly |
| SdcApi.FilterNonEmptyWithin | mms/mms_sdc_api_client.py:602-605 | Search's filter keeps only names of its list, each starting no later than the end date |
| SdcApi.FilterNonEmptyKeeps | mms/mms_sdc_api_client.py:602-605 | Search's filter of a non-empty list, in an order filter_time allows, keeps every name of the list starting within [start, end] |
| SdcApi.ListedNames | mms/mms_sdc_api_client.py:291-302 | a failed file-names request lists no name |
| SdcApi.SearchKeeps | mms/mms_sdc_api_client.py:570-607 | in any orders OrdersOk allows, a successful Search keeps, offline, every local file starting within [start, end]; online, every listed name starting within [start, end]: as a remote name when its local name does not exist, and as its local name when that exists and starts within [start, end] too |
| SdcApi.LocalKept | mms/mms_sdc_api_client.py:570-607 | SearchKeeps for one local file of an offline search |
| SdcApi.ListedKept | mms/mms_sdc_api_client.py:570-607 | SearchKeeps for one listed name of an online search |
| SdcApi.SearchFinds | mms/mms_sdc_api_client.py:570-607 | offline, Search finds no remote files; online, it returns local files whose paths exist and remote names whose local path does not, each from the listing and starting by the end date |
| SdcApi.FetchesAllDelivered | mms/mms_sdc_api_client.py:202-225 | when every transfer succeeds, the disk gains exactly the returned paths and loses nothing |
| SdcApi.FailedFetchRemoved | mms/mms_sdc_api_client.py:214-225 | a file whose transfer fails is removed from disk, unless a later file of the list is written to the same path |
| SdcApi.InitialSelection | mms/mms_sdc_api_client.py:53-93 | a new client without a file list holds the attributes given and the site their level derives; with a file list, the file list alone |
| SdcApi.Basenames | mms/mms_sdc_api_client.py:266-268 | the last '/'-piece of every remote name |
| SdcApi.Disk.constructor | mms/mms_sdc_api_client.py:202-225 | the disk starts with the given paths |
| SdcApi.Client.Blank | mms/mms_sdc_api_client.py:53-93 | the object before `__init__` assigns its attributes |
| SdcApi.Client.New | mms/mms_sdc_api_client.py:53-93 | the constructor assigns the attributes in `__init__`'s order, through the hooks; a bad site or data type raises |
| SdcApi.Client.Configure | mms/mms_sdc_api_client.py:68-91 | the rest of `__init__` after site, anc_product and data_type |
| SdcApi.Client.SetSite | mms/mms_sdc_api_client.py:617-628 | the site setter stores the site SiteFor selects, or raises ValueError and changes nothing |
| SdcApi.Client.SetDataType | mms/mms_sdc_api_client.py:111-113 | the data_type hook stores an accepted type or raises |
| SdcApi.Client.SetAncProduct | mms/mms_sdc_api_client.py:109-110 | assigning anc_product, even None, first makes the data type 'ancillary' |
| SdcApi.Client.SetLevel | mms/mms_sdc_api_client.py:122-126 | assigning a level sets the site it derives |
| SdcApi.Client.SetFiles | mms/mms_sdc_api_client.py:114-121 | assigning a file list clears the other selection attributes first |
| SdcApi.Client.SetStartDate | mms/mms_sdc_api_client.py:638-651 | the start date stored as StoredDate reads it |
| SdcApi.Client.SetEndDate | mms/mms_sdc_api_client.py:663-676 | the end date stored as StoredDate reads it |
| SdcApi.Client.SetOffline | mms/mms_sdc_api_client.py:102-129 | offline is assigned without a hook |
| SdcApi.Client.SetDataRoot | mms/mms_sdc_api_client.py:86-91 | data_root is assigned without a hook |
| SdcApi.Client.SetField | mms/mms_sdc_api_client.py:102-129 | `setattr` for one of Download's saved keys, hooks included |
| SdcApi.Client.CheckResponse | mms/mms_sdc_api_client.py:149-196 | the retry loop returns what CheckOutcome specifies and makes at most three log-in attempts |
| SdcApi.Client.Get | mms/mms_sdc_api_client.py:381-396 | the query is built first (its errors propagate); a reply that is not ok goes through check_response |
| SdcApi.Client.FileNames | mms/mms_sdc_api_client.py:291-302 | an empty reply means no file; otherwise the comma-separated names, filtered by time, in an order filter_time allows for them (each craft once, only crafts of the names, all of them on success) |
| SdcApi.Client.FileInfo | mms/mms_sdc_api_client.py:284-288 | the file names of the SDC's file information |
| SdcApi.Client.FindLocalFiles | mms/mms_sdc_api_client.py:305-359 | Local_FileNames returns LocalFileNames: the day list, the path patterns and the directory search with its errors, each directory looked up from the starting directory; the source's lookup from a relative data_root is `SdcClient.SearchFrom`, and `SdcClient.AbsoluteAsWritten` proves the two agree for an absolute root such as the default `~/data/mms` |
| SdcApi.Client.FilterList | mms/mms_sdc_api_client.py:602-605 | filter_time is applied to a list only when the list is not empty, and then in an order it allows for that list |
| SdcApi.Client.SplitByPresence | mms/mms_sdc_api_client.py:591-599 | the listing is split into existing local names and missing remote names, as Presence specifies |
| SdcApi.Client.Search | mms/mms_sdc_api_client.py:570-607 | Search returns SearchResult of the selector and the disk, every filter that ran visiting its crafts in an order filter_time allows (OrdersOk); online it sets the information type to file_names and changes nothing else |
| SdcApi.Client.DownloadFile | mms/mms_sdc_api_client.py:202-225 | the destination comes from the file name (ancillary layout when the URL mentions 'ancillary'); a delivered file is on disk, a failed one removed |
| SdcApi.Client.DownloadAll | mms/mms_sdc_api_client.py:266-275 | every transfer is tried in order, and the results are collected in order, or the first failure |
| SdcApi.Client.Download | mms/mms_sdc_api_client.py:227-281 | Download returns DownloadOutcome: offline or with nothing missing, the local files; otherwise the local files followed by the fetched ones; the selector and disk as DownloadOutcome says; its search's filters visit their crafts in orders filter_time allows |
| SdcApi.Client.FetchMissing | mms/mms_sdc_api_client.py:247-279 | the attributes are saved, the missing base names become the file list, the files are fetched, and the attributes are restored after a successful fetch |
| SdcApi.Client.Restore | mms/mms_sdc_api_client.py:277-279 | the restore loop leaves the state Restored specifies |
| SdcApi.ExistingIndices | mms/mms_sdc_api_client.py:591-594 | the indices of the local names on disk, as PresentIndices |
| SdcApi.OmitIndices | mms/mms_sdc_api_client.py:595-599 | the remote names whose index is not present, as Pick of AbsentIndices |
| SdcApi.Collect | mms/mms_sdc_api_client.py:275 | the futures' results in order, or the first failure |
| MmsUtils.DistributeIndex | mms/mms_utils.py:100-115 | the outer loop varies slowest: combination k·\|cs\|+j is outer value k before inner combination j |
| MmsUtils.CrossMembers | mms/mms_utils.py:100-115 | the comprehension yields exactly the sequences taking one value from each argument, in argument order |
| MmsUtils.CrossCount | mms/mms_utils.py:100-115 | a successful cross product has one entry per combination |
| MmsUtils.CrossFails | mms/mms_utils.py:100-115 | a TypeError arises exactly when a None argument is reached, i.e. when no argument before it is an empty list |
| MmsUtils.ConstructPath | mms/mms_utils.py:21-118 | construct_path succeeds exactly when the cross product of its arguments (strings as one-element lists, optdesc only when not None) does |
| MmsUtils.ConstructPathOutcome | mms/mms_utils.py:21-118 | construct_path fails (TypeError) exactly on a None instr, mode or level that the loops reach, and otherwise yields one path per combination |
| MmsUtils.ConstructPathMembers | mms/mms_utils.py:21-118 | the paths construct_path yields are exactly those of the combinations of one value from each argument |
| MmsUtils.PathForLayout | mms/mms_utils.py:80-115 | a path follows the layout root/sc/instr/mode/level[/optdesc]/YYYY/MM[/DD][/pattern] |
| MmsUtils.AncillaryFields | mms/mms_utils.py:232-247 | an ancillary name gives sc, product, the start day read with `%Y%j` and written as `%Y%m%d`, and the version |
| MmsUtils.ScienceFields | mms/mms_utils.py:251-258 | a science name gives its fields, with '' for a missing descriptor and the version without 'v' |
| MmsUtils.ParseOne | mms/mms_utils.py:203-260 | a path with an 'ancillary' directory is parsed as ancillary, any other as science |
| MmsUtils.ParseAll | mms/mms_utils.py:203-260 | the fields of every file, or the first file's error |
| MmsUtils.ParseFilenames | mms/mms_utils.py:203-260 | parse_filename's loop returns ParseAll |
| MmsUtils.PatternParses | mms/mms_utils.py:80-97 | a name built by construct_path with files=True parses back into its fields, with start time tstart + '*' and version '*' |
| MmsUtils.TagTime | mms/mms_utils.py:157-159 | a time tag that can be read (`%Y%m%d` for eight characters, `%Y%m%d%H%M%S` otherwise) gives a real datetime; any failure is a ValueError |
| MmsUtils.Entries | mms/mms_utils.py:155-159 | the entries of a group pair every file with its parsed start time, in list order |
| MmsUtils.Sort | mms/mms_utils.py:162-164 | `sorted` by start time gives sorted entries with the same multiset |
| MmsUtils.SortStable | mms/mms_utils.py:162-164 | the sort keeps the order of files with equal start times |
| MmsUtils.KeepUntil | mms/mms_utils.py:168-174 | the end filter keeps exactly the entries starting at or before the end |
| MmsUtils.KeepUntilSorted | mms/mms_utils.py:168-174 | the end filter keeps sorted entries sorted |
| MmsUtils.StartIndicesSuffix | mms/mms_utils.py:183 | on sorted entries the start indices run from the first entry not earlier than the start |
| MmsUtils.WindowSuffix | mms/mms_utils.py:183-195 | on sorted entries the window is a suffix of the kept entries: from the first one not earlier than the start, or from the one before it |
| MmsUtils.KeptEntries | mms/mms_utils.py:153-174 | the kept entries are sorted, come from the group with their names' times, and are exactly the files starting by the end |
| MmsUtils.FilterGroupSlice | mms/mms_utils.py:183-195 | a successful group is the kept entries from WindowFrom on |
| MmsUtils.WindowFacts | mms/mms_utils.py:183-195 | every entry from the start on is in the window; after its first entry none precedes the start; a first entry before the start is the latest such entry |
| MmsUtils.WindowBounded | mms/mms_utils.py:168-195 | the window holds only files of the group that start by the end, in start-time order |
| MmsUtils.WindowCovers | mms/mms_utils.py:168-195 | the window holds every file of the group starting within [start, end], and after its first file only such files |
| MmsUtils.WindowPredecessor | mms/mms_utils.py:183-189 | a first window file before the start is the group's latest file before the start; it is present whenever such a file exists and no file starts exactly at the start |
| MmsUtils.FilterGroupWindow | mms/mms_utils.py:153-197 | what a successful group keeps: only files starting by the end; every file within [start, end]; start-time order; at most the first file before the start |
| MmsUtils.FilterGroupOutcome | mms/mms_utils.py:153-197 | a group fails with the first unparsable name's error, with ValueError for an unreadable tag, and otherwise with IndexError exactly when no file starts by the end on or after the start's day |
| MmsUtils.WindowSucceeds | mms/mms_utils.py:185-186 | the window exists exactly when some kept entry is on or after the start's day |
| MmsUtils.ArgTime | mms/mms_utils.py:142-143 | a start or end argument is read with `%Y-%m-%dT%H:%M:%S`; None is a TypeError |
| MmsUtils.FilterTime | mms/mms_utils.py:122-199 | filter_time returns FilterTimeResult for the order in which it visited the craft set: each craft once, only crafts of the names, and every craft of the names when it succeeds (VisitOrder) |
| MmsUtils.FilterTimeKeeps | mms/mms_utils.py:122-199 | in any order VisitOrder allows, a successful filter_time read both dates, returns only listed names starting by the end, and keeps every listed name starting within [start, end] |
| MmsUtils.CraftSet | mms/mms_utils.py:148-150 | the craft set holds exactly the (spacecraft, instrument) pairs of the parsed names |
| MmsUtils.VisitCrafts | mms/mms_utils.py:152-197 | the loop visits every craft once, concatenating each group's files, and stops at the first failure |
| MmsUtils.OwnGroup | mms/mms_utils.py:152-153 | a name that parses lands in its own craft's group |
| MmsUtils.FilterTimeWindow | mms/mms_utils.py:122-199 | in any set order, a successful filter_time returns only listed files that start by the end, and every listed file that starts within [start, end] |
| MmsUtils.GroupErrors | mms/mms_utils.py:153-197 | a group whose names parse fails only with ValueError or IndexError |
| MmsUtils.GroupOutcome | mms/mms_utils.py:153-197 | with readable tags, a group succeeds exactly when one of its files starts by the end on or after the start's day |
| MmsUtils.FilterTimeOutcome | mms/mms_utils.py:122-199 | in any set order, with parsed arguments and readable tags, filter_time succeeds exactly when every craft's group does, and otherwise fails with IndexError |
| MmsUtils.FilterTimeBadTag | mms/mms_utils.py:157-159 | an unreadable time tag makes filter_time fail with ValueError, or with the IndexError of a group visited before it |
| Dates.OrderIsLexicographic | mms/mms_utils.py:168-186 | the model's datetime order compares field by field, as Python's does |
| Dates.BeforeIsStrictTotalOrder | mms/mms_utils.py:162-164 | `<` on datetimes is a strict total order and `<=` agrees with it |
| Dates.NextDayAdvancesOneDay | mms/mms_sdc_api_client.py:328-332 | `+ timedelta(days=1)` moves one day number on and keeps the time of day |
| Dates.NextDayStaysValid | mms/mms_sdc_api_client.py:328-332 | stepping a day stays within Python's range except from 9999-12-31 |
| Dates.NextDayIsNext | mms/mms_sdc_api_client.py:328-332 | no calendar day lies between a day and the next |
| Dates.FromDayOfYearNumber | mms/mms_utils.py:240-243 | `%Y%j` day doy is doy - 1 days after 1 January |
| Strptime.Fields | mms/mms_utils.py:142-143 | `strptime` matching: a text it accepts has one value per directive and a length between the layout's narrowest and widest spellings |
| Strptime.MatchBounds | mms/mms_utils.py:142-143 | a match from position i that tries each field's alternatives in order, backtracking, ends between i plus the minimum and i plus the maximum widths of the fields left |
| Strptime.ReadBack | mms/mms_sdc_api_client.py:641-648 | reading back what is written for any values in range gives those values, with every field zero-padded or narrowed to its shortest spelling wherever a non-digit literal follows |
| Strptime.ParseIso | mms/mms_utils.py:142-143 | `%Y-%m-%dT%H:%M:%S` gives only real datetimes, from texts of 14 to 19 characters |
| Strptime.ParseIsoDate | mms/mms_sdc_api_client.py:645-648 | `%Y-%m-%d` gives only real days at midnight, from texts of 8 to 10 characters |
| Strptime.ParseCompactDate | mms/mms_utils.py:157 | `%Y%m%d` gives only real days at midnight |
| Strptime.ParseCompactDateTime | mms/mms_utils.py:158 | `%Y%m%d%H%M%S` gives only real datetimes |
| Strptime.ParseYearDay | mms/mms_utils.py:245 | `%Y%j` gives only real days at midnight |
| Strptime.YearDayRoundTrip | mms/mms_utils.py:245 | a year and a three-digit day of year read back as the doy-th day from 1 January, or fail past 9999-12-31 |
| Strptime.IsoRoundTrip | mms/mms_load_data.py:168-169 | reading `isoformat()` back gives the datetime itself |
| Strptime.IsoReadsNarrowed | mms/mms_sdc_api_client.py:641-643 | an ISO date and time with any fields written without their leading zero reads back as the datetime |
| Strptime.IsoDateRoundTrip | mms/mms_sdc_api_client.py:512-516 | reading a `%Y-%m-%d` date back gives that day at midnight |
| Strptime.IsoDateReadsNarrowed | mms/mms_sdc_api_client.py:645-648 | an ISO date with its month or day written with one digit reads back as that day at midnight |
| Strptime.NarrowIsoDate | mms/mms_sdc_api_client.py:645-648 | '2020-1-5' reads as 5 January 2020 |
| Strptime.CompactRoundTrip | mms/mms_utils.py:246 | reading a `%Y%m%d` date back gives that day at midnight |
| Strptime.CompactInjective | mms/mms_utils.py:246 | two valid days with the same `%Y%m%d` text are the same day |
| Strptime.CompactTimeRoundTrip | mms/mms_utils.py:158 | a fourteen-digit time tag reads back as the datetime it was written from |
| Strptime.ShortTagReads | mms/mms_utils.py:158 | the twelve-digit tag '201510161234' reads, after backtracking, as 2015-10-16 12:03:04 |
| Strings.SplitJoin | mms/mms_utils.py:232-258 | joining the pieces of a split gives the string back |
| Strings.JoinSplit | mms/mms_sdc_api_client.py:399-434 | splitting a join of separator-free pieces gives the pieces back |
| Strings.StripWindow | mms/load_datafile.py:111-124 | `strip` removes whitespace only, at both ends |
| Strings.StripIdempotent | mms/load_datafile.py:111-124 | stripping twice is stripping once |
| Strings.LowerIdempotent | mms/mms_sdc_api_client.py:436-467 | lower-casing is idempotent |
| Strings.Sort | mms/mms_load_data.py:195 | `sorted` returns the same strings in ascending order |
| Strings.AscendingUnique | mms/mms_load_data.py:195 | only one ascending sequence holds a given multiset of strings, so `sorted` does not depend on its input's order |
| Strings.PathJoinPlain | mms/mms_utils.py:80-115 | on plain components `os.path.join` is a '/'-join |
| Strings.BasenamePathJoin | mms/mms_sdc_api_client.py:399-434 | a plain file name joined last is the basename of the path |
| Strings.SplitExt | mms/load_datafile.py:106-109 | `os.path.splitext` splits at the last '.' of the last component when a non-dot character comes before it |
| LoadDatafile.LoadDatafile | mms/load_datafile.py:61-67 | a non-string name is a ValueError; a name containing 'ancillary' goes to the ancillary reader; any other goes to the CDF loader |
| LoadDatafile.FirstTwoFieldsPrefix | mms/load_datafile.py:106-109 | the set name's fields are the longest prefix of the stem that holds at most one '_' |
| LoadDatafile.Continue | mms/load_datafile.py:118-120 | the continuation loop, stopping at the end of the file, ends with a text not ending in ',' unless the file ran out; a text not ending in ',' is left as it is |
| LoadDatafile.ContinueGlues | mms/load_datafile.py:118-120 | the continued text is the first line followed by every consumed line, each stripped |
| LoadDatafile.Scan | mms/load_datafile.py:111-124 | the header loop ends at the end of the file or just after a blank line; every entry is non-empty, and one ends in ',' only when the file ran out |
| LoadDatafile.Partition | mms/load_datafile.py:121 | `partition('=')`: the text before the first '=', the separator, the rest; without '=', the whole text and two empty strings |
| LoadDatafile.MetaLines | mms/load_datafile.py:111-120 | metalines counts the lines after the title up to and including the first blank line, or up to the end of the file, continuation lines included |
| LoadDatafile.HeaderNames | mms/load_datafile.py:98-109 | the header holds the title and the set name, unless a header entry reuses their key |
| LoadDatafile.HeaderEntries | mms/load_datafile.py:111-124 | every header key maps to the values of its last entry |
| LoadDatafile.LoadAncillaryHeader | mms/load_datafile.py:97-124 | the reading loop returns AncillaryHeader |
| LoadDatafile.ReadHeaderLines | mms/load_datafile.py:111-124 | the `for line in file` loop assigns every entry into the dictionary and returns the position after the last line read |
| LoadDatafile.ReadContinuation | mms/load_datafile.py:118-120 | the continuation loop returns Continue |
| LoadDatafile.ContinueAsWrittenAgrees | mms/load_datafile.py:118-120 | when the loop as written finishes, it agrees with Continue |
| LoadDatafile.ContinueAtEndRuns | mms/load_datafile.py:118-120 | at the end of the file, a text ending in ',' never stops growing |
| LoadDatafile.TrailingCommaAtEnd | mms/load_datafile.py:118-120 | a file whose last header line ends in ',' is never finished by the loop as written, while Continue finishes it |
| Merge.Concat | mms/mms_load_data.py:263-264 | `np.concatenate` succeeds exactly when both values are one-dimensional arrays; a scalar gives ValueError |
| Merge.StackAxisOk | mms/mms_load_data.py:263-264 | one round of the axis loop succeeds exactly when its variable is an array in both datasets (KeyError or ValueError otherwise), and leaves every other variable as stackable as it was |
| Merge.StackAxisSamples | mms/mms_load_data.py:263-264 | one round keeps the stored variables in their order and appends the incoming samples to its own variable only |
| Merge.StackFromOk | mms/mms_load_data.py:263-264 | the axis loop succeeds exactly when every incoming variable it reaches is an array that the stored dataset also holds as an array |
| Merge.StackFromSamples | mms/mms_load_data.py:263-264 | after the axis loop the stored variables keep their order, and a variable holds the stored samples followed by the incoming ones if the loop reached it |
| Merge.MergeSetFacts | mms/mms_load_data.py:256-264 | a seen dataset merges exactly when the variable counts agree (else TypeError) and every variable can be concatenated |
| Merge.MergeSetSamples | mms/mms_load_data.py:256-264 | a merged variable holds the stored samples followed by the incoming ones |
| Merge.MergeDatasetSamples | mms/mms_load_data.py:252-264 | one round adds the dataset and appends its samples, leaving every other dataset untouched |
| Merge.MergeDataSamples | mms/mms_load_data.py:252-264 | after the dataset loop every variable holds the stored samples followed by the file's |
| Merge.MergeMetaOk | mms/mms_load_data.py:270-277 | a seen dataset's metadata merges exactly when no shared key holds a differing non-string value (the warning's concatenation raises otherwise) |
| Merge.MergeMetaItems | mms/mms_load_data.py:277 | `update` keeps the stored keys in front and maps every key to the file's value if present, else to the stored one |
| Merge.MergeMetasPut | mms/mms_load_data.py:266-277 | one round puts under the dataset's name the stored entries overwritten by the file's, and changes no other dataset |
| Merge.MergeMetasKeys | mms/mms_load_data.py:266-277 | one round adds the file's dataset to the stored ones and no other |
| Merge.MergeMetasEntry | mms/mms_load_data.py:266-277 | one round overwrites a dataset's entries with the file's and leaves the others untouched |
| Merge.MergeMetasEntries | mms/mms_load_data.py:266-277 | after the metadata loop every dataset's entries are its stored ones overwritten by the file's |
| Merge.MergeFromLoaded | mms/mms_load_data.py:218-277 | a successful merge means every load it went through succeeded |
| Merge.MergeFileSamples | mms/mms_load_data.py:250-264 | merging one CDF file appends the file's samples to every variable of every dataset |
| Merge.MergeFromSamples | mms/mms_load_data.py:218-277 | after a successful merge every variable holds the samples it held followed by its samples in every CDF file, in file order |
| Merge.MergeFileMeta | mms/mms_load_data.py:265-277 | merging one CDF file overwrites every dataset's metadata entries with the file's |
| Merge.MergeFromMeta | mms/mms_load_data.py:218-277 | after a successful merge every metadata key holds the value of the last CDF file that has it, or its earlier value if none has it |
| Merge.MergeLoads | mms/mms_load_data.py:218-277 | the merge loop, which stops at the first failed load or failed merge, computes MergeAll |
| Merge.MergeCdf | mms/mms_load_data.py:250-277 | one CDF file: the dataset loop, then the metadata loop |
| Merge.MergeDatasets | mms/mms_load_data.py:252-264 | the dataset loop computes MergeDataFrom |
| Merge.StoreDataset | mms/mms_load_data.py:253-264 | the body of the dataset loop computes one round, MergeDataset |
| Merge.StackDataset | mms/mms_load_data.py:256-264 | the count check, then the axis loop, as MergeSet |
| Merge.StackVariable | mms/mms_load_data.py:263-264 | the body of the axis loop computes one round, StackAxis |
| Merge.MergeMetadata | mms/mms_load_data.py:266-277 | the metadata loop computes MergeMetasFrom |
| Merge.StoreMetadata | mms/mms_load_data.py:267-277 | the body of the metadata loop computes one round, MergeMetas |
| Merge.CompareMeta | mms/mms_load_data.py:272-275 | the comparison loop fails exactly when a shared key holds clashing values |
| Merge.UpdateInPlace | mms/mms_load_data.py:277 | `update` one assignment at a time gives Update |
| TimeClip.PosixOrder | mms/mms_load_data.py:319-336 | timestamps order datetimes as Python does |
| TimeClip.Timestamp | mms/mms_load_data.py:319-336 | a datetime becomes its POSIX time, a number stays as it is, a string converts exactly when it parses, and anything else is a TypeError |
| TimeClip.FirstAtOrAfter | mms/mms_load_data.py:365-367 | the forward scan stops at the first sample at or after the lower bound |
| TimeClip.LastAtOrBefore | mms/mms_load_data.py:368-370 | the backward scan stops at the last sample at or before the upper bound |
| TimeClip.Slice | mms/mms_load_data.py:372-380 | Python's slice with clamped bounds, empty when they cross |
| TimeClip.ClipAxesItems | mms/mms_load_data.py:372-380 | cutting the axes cuts each one, looked up by name |
| TimeClip.ClipDataset | mms/mms_load_data.py:339-380 | clipping one dataset keeps its variable names in their order (its cases are stated by KeptWhole and CutAxes) |
| TimeClip.KeptWhole | mms/mms_load_data.py:354-363 | a reversed, disjoint or covering window leaves the dataset as it was |
| TimeClip.ScanRange | mms/mms_load_data.py:365-370 | every sample before the first index is earlier than the window, every sample from the end index on later, and the range between lies within |
| TimeClip.CutAxes | mms/mms_load_data.py:372-380 | a cut cuts every axis, the time axis included, to the one range the scans find |
| TimeClip.SortedScan | mms/mms_load_data.py:365-370 | on a sorted axis the scanned range holds exactly the samples in [lo, hi] |
| TimeClip.SortedCut | mms/mms_load_data.py:365-380 | on a sorted time axis a cut keeps exactly the samples in [lo, hi] |
| TimeClip.SortedKept | mms/mms_load_data.py:354-363 | a covering window keeps every sample, and a disjoint one keeps them too though none lies within |
| TimeClip.ClipEntry | mms/mms_load_data.py:339-380 | clipping keeps dataset names and order; a dataset before the first failure is clipped, one after is as it was |
| TimeClip.ClipStatusIs | mms/mms_load_data.py:339-380 | clipping succeeds exactly when every dataset clips, and then every dataset is clipped; otherwise the first failure's error is raised |
| TimeClip.ReversedWindow | mms/mms_load_data.py:354-357 | a window that starts after it ends changes nothing, and still raises for the first dataset without a sized time axis |
| TimeClip.ScanWindow | mms/mms_load_data.py:365-370 | the two scans return FirstAtOrAfter and one past LastAtOrBefore |
| TimeClip.CutDataset | mms/mms_load_data.py:372-380 | the axis loop replaces each list or array with at least one element by its slice |
| TimeClip.ClipOne | mms/mms_load_data.py:339-380 | one iteration of the dataset loop computes ClipDataset |
| TimeClip.DataDict.constructor | mms/mms_load_data.py:305 | the dictionary holds the given datasets |
| TimeClip.DataDict.TimeClip | mms/mms_load_data.py:305-383 | the dictionary afterwards is TimeClipResult and the error raised is TimeClipStatus; an unconvertible bound raises before anything is clipped |
| TimeClip.DataDict.ClipAll | mms/mms_load_data.py:339-380 | the datasets are clipped in key order, and the first failure stops the loop with the earlier ones already clipped |
| LoadData.AsList | mms/mms_load_data.py:137-144 | a list's items, or the value alone, None included |
| LoadData.Wrapped | mms/mms_load_data.py:137-139 | a lone string is wrapped into a list; lists and None pass as they are |
| LoadData.Probes | mms/mms_load_data.py:137-140 | None stays None; otherwise every probe becomes 'mms' + the probe, in order |
| LoadData.DataTypeName | mms/mms_load_data.py:176 | an empty string or empty list becomes 'science'; `len(None)` is a TypeError; any other value passes unchanged |
| LoadData.ClientState | mms/mms_load_data.py:179-191 | building a client fails exactly when the data_type hook refuses the type; otherwise its dates are real datetimes |
| LoadData.TriplesSize | mms/mms_load_data.py:174-193 | the number of clients is the product of the three list lengths |
| LoadData.DescsVisit | mms/mms_load_data.py:178-193 | a run that did not fail built one client per descriptor, in order |
| LoadData.LevelsVisit | mms/mms_load_data.py:177-193 | a run that did not fail built one client per level and descriptor, level by level |
| LoadData.DtypesNamed | mms/mms_load_data.py:174-176 | in a run that did not fail every data type visited had a good name |
| LoadData.DtypesVisit | mms/mms_load_data.py:174-193 | a run that did not fail built exactly one client per (data type, level, descriptor) triple, data types outermost |
| LoadData.GatherVisits | mms/mms_load_data.py:174-193 | a complete loop that did not fail built one client per triple, \|dtypes\|·\|levels\|·\|descs\| clients in all |
| LoadData.LoadAll | mms/mms_load_data.py:213-214 | one load per path, in path order |
| LoadData.FinishOrderFree | mms/mms_load_data.py:195-300 | the result depends only on which paths the clients returned (with repetitions), not on their order |
| LoadData.FinishShape | mms/mms_load_data.py:279-300 | None exactly when the merge left no variables or no metadata; otherwise the merged metadata and the merged variables under the same names, unclipped unless time_clip |
| LoadData.RunClient | mms/mms_load_data.py:179-193 | one client is built, asked for its URL and told to download, as Clients specifies, its filters visiting their crafts in orders filter_time allows (ClientOrdered) |
| LoadData.RunDescs | mms/mms_load_data.py:178-193 | the descriptor loop computes DescsUpTo, every client it runs using orders its filters allow |
| LoadData.RunLevels | mms/mms_load_data.py:177-193 | the level loop computes LevelsUpTo, every client it runs using orders its filters allow |
| LoadData.RunAll | mms/mms_load_data.py:174-193 | the data type loop computes Gather, every client using orders its filters allow, and a success ran every loop to its end |
| LoadData.MmsLoadData | mms/mms_load_data.py:137-300 | `mms_load_data` returns LoadOutcome and leaves the disk LoadOutcome describes; every client's filters visit their crafts in orders filter_time allows, and a success ran every loop to its end |

## Left out

- HTTP, logging in, JSON decoding and the SDC itself: replies are inputs. `check_response`'s log-in is an attempt whose reply is given; passwords and the `requests` session are not part of this model.
- `ThreadPoolExecutor` in `Download` and `mms_load_data` is run one task after another. Concurrency and interleaved file writes are not modelled.
- `os.makedirs`, `print` and logging calls have no effect on the model.
- The `pandas`/ancillary branch of the merge loop (mms_load_data.py:220-249) is left out. `Merge.MergeLoad` skips ancillary loads. The `DataFrame` handling in `mms_data_time_clip` and `drop_duplicates` (lines 287-290) are left out as well.
- `load_cdf` (pyspedas's CDF reader) is not part of this model: it is a function parameter returning the datasets and metadata of a path.
- The data rows of ancillary files (`pandas.read_csv`, load_datafile.py:126-144) are left out. Only the header is modelled. Failure to open the file is not modelled either.
- `mms_load_data`'s conversion of `trange` (lines 149-165, `dateutil` parsing and its defaults) is left out. The model takes the two datetimes it produces.
- `mms_data_time_clip` reads string bounds only in the ISO date and date-time layouts, not in every layout `dateutil` accepts. Microseconds are left out of datetimes and timestamps.
- Multi-dimensional arrays: every variable is a scalar or a one-dimensional array of numbers.
- SdcApi.Client: the instance attributes are held in one `attrs` record rather than fifteen fields. The hooks and methods update that record.
- The datasets `mms_data_time_clip` writes back are values. Aliasing between the dictionary and other references to the same dataset objects is not modelled.
- `mms_load_data_shims.py`, `dataload_sample.py`, `bcurl`, `VersionInfo` and the SDC's other information types (`FileInfo` beyond the names, versions) are not part of this model.
- `mms_data_time_clip` logs that a dataset disjoint from the window is removed, but the code keeps it. The model follows the code (`TimeClip.SortedKept`).
- Lower (Strings.Lower): `str.lower` is modelled on the ASCII letters only. Other characters are kept as they are, whereas Python lower-cases every cased Unicode letter (and 'İ' becomes two characters). The ASCII-only character tables keep the model finite.
- AncillaryLayout (SdcClient.AncillaryLayout): inherits the ASCII-only Strings.Lower, so it agrees with Python only on data roots and names whose upper-case letters are ASCII.
- AncillaryPlainLayout (SdcClient.AncillaryPlainLayout): inherits the ASCII-only Strings.Lower in the same way.
- Fields (Strptime.Fields): `\d` is read as the ASCII digits '0' to '9'. Python's pattern also matches the other Unicode decimal digits, which `int` then converts. StoredDate, TagTime and ArgTime read dates through Fields and share this limit.
- ReadBack (Strptime.ReadBack): the writer side covers zero-padded fields and one-digit fields before a separator. Texts that strptime also accepts but that this writer never produces (a one- or two-digit `%j`, a day written as a space and a digit) are read by Fields but not covered by a round-trip lemma.
- Compact (Dates.Compact): `%Y` is written with four digits. Some C libraries write years below 1000 without padding; the SDC's dates all have four-digit years.
- SearchFrom (SdcClient.SearchFrom): a relative directory is resolved by joining it to the working directory. `..` and symbolic links are not resolved, and the process-wide working directory (restored by the last `os.chdir(pwd)`) is not kept as state.
- SearchKeeps (SdcApi.SearchKeeps): a listed name whose local name exists is promised back only when the local name itself starts within [start, end]. Search filters the local names by their own paths, and the model does not prove that a local path always reads as the same start time as its remote name (the 'ancillary' test looks at the whole path).
- Download's restore after a failure: the source does not restore the attributes when a transfer raises (line 275 is outside the `try`). The model follows the code.

## Findings

| source | as written | input that shows it | evidently intended | confidence | as-written member | corrected member |
|---|---|---|---|---|---|---|
| mms/mms_sdc_api_client.py:341-357 | each `os.chdir(root)` resolves a relative `root` from the directory the previous successful `os.chdir` entered, and `os.chdir(pwd)` only runs after the loop | `data_root='data'`, survey data for the days 2015-10-16 and 2015-10-17: both day patterns lie in `data/mms1/fgm/srvy/l2/2015/10`; the second `os.chdir` looks for `data/mms1/fgm/srvy/l2/2015/10` inside that directory, gets FileNotFoundError, and the 20151017 files are skipped | every directory is looked up from the starting directory, as with an absolute data root | not executed | SdcClient.RelativeRootMisses | SdcClient.SearchDirs |
| mms/load_datafile.py:118-120 | `while tmpline[-1] == ','` appends `file.readline().strip()`, which is '' at the end of the file, so the text keeps ending in ',' | an ancillary file whose header's last line ends in ',' and is followed by no blank line (e.g. lines `Title`, `KEY = a,`) | the continuation stops at the end of the file | not executed | LoadDatafile.TrailingCommaAtEnd | LoadDatafile.Continue |
