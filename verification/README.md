# Device management and firmware update servers: a verified model

This project models the stateful core of a mobile device management stack and proves properties of
it with Dafny. It covers the storage of access control lists (ACLs) in the device management utility
server, the firmware-over-the-air (FOTA) server and its package table, the FOTA monitory service, the
device dialog server, and two small text codecs. `dafny verify dfyconfig.toml` checks everything.

## How the parts fit together

| files | what they model |
|---|---|
| Common, Decimals | searching in text, sequences, decimal numerals |
| AclTypes, AclMerge | entities of the ACL storage; merging a stored node into the ACL of a tree node |
| AclText, AclRecord | the text form and the length-prefixed binary form of ACLs |
| AclIndex, AclNodes | the sorted list of nodes and the map that it stands for; nodes and commands as objects |
| AclFiles, AclStorage | files, crashes and the save protocol; the storage object and its runs |
| DmUri, Base64 | segments of management tree URIs; the Base64 decoder |
| FotaTypes, FotaSql, FotaDb | update packages, the statement that updates a row, the table |
| FotaAlert, FotaBoot, FotaDownload | reporting with nested retry budgets, recovery at start, download restarts |
| FmsMonitor, FmsRecord | the one-slot request monitor and its record file |
| DeviceDialog, DialogScreens | asynchronous requests behind dialogs that replace each other; which dialog follows which |

Objects whose methods update their fields are classes here. Each method is proved against a function
of the old state, and the theorems over whole runs are about those functions.

## What came out

* **Crash safety of the ACL storage.** A save fills a temporary file, cuts it to size, and switches
  files over a backup. A process can die before any file operation, and a rename is atomic. Loading
  then always yields the last completed list, over any sequence of saves, crashes and loads.
* **The ACL merge** reaches a fixpoint after two runs when a node has distinct named command types.
  This needs nothing of the certificates. With repeated types (which a client can store under
  different certificates) it can oscillate for ever; `AclMerge.MergeOscillates` gives the commands.
* **The report budget** is (1 + 3) jobs for each try, and up to three more when a session with
  attempts left was open at the first of the two writes. All parts are attained. The tries are not
  always the stored ones: a report that waits for the network holds its own count, which is written
  back when the network is found. When the setting was lowered in the meantime, twenty jobs can follow
  where the table allows eight. `FotaAlert.StoredBudgetIff` says exactly when the stored count decides.
* **The dialog server** can complete a message twice: a server alert whose profile cannot be opened
  overwrites the stored message, and is completed, while an earlier alert still waits for the user.
  `DeviceDialog.NoneTwiceIff` says exactly which runs do so.
* **The dialog server** asks to be closed only once (`devicemgmtnotifications/dmdevdialogserver/src/dmdevicedialogserver.cpp:469`). When a
  request takes that back, it runs for ever (`DialogScreens.NeverCloses`). A launch that fails raises the
  pending count for good, so that the end of a session no longer asks
  (`DeviceDialog.FailedLaunchKeepsServer`).
* **The monitory service** keeps its slot taken with nothing armed after a battery level out of range, an
  unreadable drive, or a failure of telephony at the end of a call (`FmsMonitor.BatteryRequest`,
  `FmsMonitor.ChargerOrSpaceWait`, `FmsMonitor.CallEndRequest`); only the end of a session that stops the
  server frees it.
* **The Base64 decoder** refuses every text with two pads, although its comment
  (`omaprovisioning/pnputil/src/PnpUtilImpl.cpp:591`) allows them. The model follows the code.
* **A write to the package table** first reads the stored URL into a buffer of 256 bytes
  (`fotaapplication/fotaserver/src/FotaDB.cpp:266`), so it
  panics when a longer URL is stored, although URLs of up to 2048 bytes are accepted. A start of the
  server reads every row into such a buffer, so one such package makes every later start panic, and the
  rows after it are never recovered (`FotaBoot.LongUrlStopsEveryStart`).
* **The monitory service** does not rewrite its record while a monitor runs: the write after a charger
  or memory monitor completes is skipped, because the slot is still taken.
* At `fotaapplication/fotaserver/src/FotaServer.cpp:1073` the column mask is
  built with a logical or, so the write names only the result column.
  That write is one of the arbitrary table writes of `FotaAlert` and `FotaDb`.

## Conventions

* 8-bit descriptors are strings of characters; the Base64 decoder works on bytes. Integers are
  unbounded except where a width matters: packed integers, the record fields, package sizes.
* A leave is a result value. A panic is a result value where a fixed buffer can overrun.
* File operations are performed whole, and a failed one is the death of the process.
* The layout of a certificate comes from a system header that is not part of this model. It is seven
  bounded text fields of 64 characters each; the capacity is a stand-in, and no theorem depends on it.
* Command names are compared without regard to the case of ASCII letters.
* Network, telephony, user answers, clocks, repositories and the results of other servers are
  parameters of the events.

## Model

| member | source | states |
|---|---|---|
| AclMerge.MergeConverges | policymanagement/dmutilserver/src/ACLStorage.cpp:996-1038 | with distinct named command types a third merge of the same node changes nothing after the second, for every ACL, all certificates and every session |
| AclMerge.StableAfterHit | policymanagement/dmutilserver/src/ACLStorage.cpp:996-1038 | once a merge has found a corresponding entry, merging again changes nothing |
| AclMerge.OneRunIsEnoughIff | policymanagement/dmutilserver/src/ACLStorage.cpp:996-1038 | exactly when one merge is already a fixpoint: an entry was found, nothing was granted, or the session's server had no entry before |
| AclMerge.MergeOscillates | policymanagement/dmutilserver/src/ACLStorage.cpp:996-1038 | without distinct types the merge need not converge: nine pairwise different stored commands that make it alternate between two ACLs for ever |
| AclMerge.MergeFrame | policymanagement/dmutilserver/src/ACLStorage.cpp:996-1038 | without any assumption, entries of other servers survive in order; an added entry names the session's server, has the type of a stored command, and that command carries the session's certificate; and so does every entry that any one step adds, be it one removed earlier in the same merge |
| AclMerge.KeepOnlyFrame | policymanagement/dmutilserver/src/ACLStorage.cpp:1028-1037 | removing the other entries of a server keeps every other server's entries in order and the chosen entry |
| AclMerge.FindFirst | policymanagement/dmutilserver/src/ACLStorage.cpp:245-262 | the first entry of the command's type whose server identifier or certificate agrees, or -1 when none does |
| AclMerge.RewriteFrame | policymanagement/dmutilserver/src/ACLStorage.cpp:990-1038 | the clear flag decides what is kept: without it the entries of every other server survive, in order; with it nothing is left but what the session's certificate earns its server |
| AclMerge.RewriteGrants | policymanagement/dmutilserver/src/ACLStorage.cpp:996-1022 | one command of the session's certificate that no entry corresponds to adds exactly its entry, behind the old ACL or alone |
| AclMerge.CorrespondingServer | policymanagement/dmutilserver/src/ACLStorage.cpp:245-262 | a stored command without a certificate corresponds to any server's entry of its type, one with a certificate only to the session's server's |
| AclMerge.AddServerAddsIff | policymanagement/dmutilserver/src/ACLStorage.cpp:333-361 | exactly when granting adds an entry, the wildcard included |
| AclText.ParsePrint | policymanagement/dmutilserver/src/ACLStorage.cpp:269-290 | parsing a printed ACL gives the list back: server identifiers may be empty or contain `=` |
| AclText.ParsePrintIff | policymanagement/dmutilserver/src/ACLStorage.cpp:518-607 | the round trip holds exactly for lists of named commands whose server identifiers contain no `&` |
| AclText.AmpersandCutsServer | policymanagement/dmutilserver/src/ACLStorage.cpp:555-600 | whatever stands before and behind it, a server identifier that contains `&` comes back cut there, and what follows the `&`, up to the end of the text, is read as entries of its own |
| AclText.ParseIffNamesKnown | policymanagement/dmutilserver/src/ACLStorage.cpp:518-607 | a text is read completely exactly when every name in it is one of the five, and then its pieces determine the list |
| AclText.ParsedIsPrintable | policymanagement/dmutilserver/src/ACLStorage.cpp:518-607 | everything that parsing yields can be printed and parsed again |
| AclText.ShortServersFit | policymanagement/dmutilserver/src/ACLStorage.cpp:273-285 | identifiers of at most 12 bytes fit the buffer of 21 bytes for each command and the buffer of 30 bytes for one |
| AclText.LongServersOverrun | policymanagement/dmutilserver/src/ACLStorage.cpp:273-285 | the bound of 12 bytes is sharp: two entries of 13 bytes overrun the buffer |
| AclText.UpdateTextConverges | policymanagement/dmutilserver/src/ACLStorage.cpp:956-1069 | rewriting a well-formed ACL text three times gives the same text as twice, and with the clear flag twice the same as once |
| AclRecord.DecodeEncodeFile | policymanagement/dmutilserver/src/ACLStorage.cpp:1155-1217 | reading a saved list of nodes gives the list back: URI, destination, clear flag, and certificate and type of every command |
| AclRecord.DecodeEncodeNode | policymanagement/dmutilserver/src/ACLStorage.cpp:430-478 | the same for one node |
| AclRecord.EncodeNode | policymanagement/dmutilserver/src/ACLStorage.cpp:367-424 | the saved form is exactly as long as announced |
| AclRecord.DecodeEncodeCommand | policymanagement/dmutilserver/src/ACLStorage.cpp:156-204 | the persisted fields of a command survive saving and loading |
| AclRecord.UnpackPackInt | policymanagement/dmutilserver/src/ACLStorage.cpp:388-424 | every 32-bit integer survives its four bytes |
| AclRecord.NodeLayout | policymanagement/dmutilserver/src/ACLStorage.cpp:388-424 | where a saved node has its flag, destination, URI length, URI and commands, and as which bytes |
| AclRecord.CommandLayout | policymanagement/dmutilserver/src/ACLStorage.cpp:156-176 | a saved command is its certificate and then the bit of its type |
| AclIndex.InsertKeeps | policymanagement/dmutilserver/src/ACLStorage.cpp:739-769 | inserting a node at its place keeps the list strictly sorted and is a map insertion of a new key |
| AclIndex.ReplaceKeeps | policymanagement/dmutilserver/src/ACLStorage.cpp:863-891 | changing a node in place keeps the order and is a map update |
| AclIndex.RemoveKeeps | policymanagement/dmutilserver/src/ACLStorage.cpp:779-800 | removing a node keeps the order and is a map removal |
| AclIndex.PutGrants | policymanagement/dmutilserver/src/ACLStorage.cpp:863-891 | after a client's command its node grants the type to the certificate and has the flag of that command, keeps the earlier commands, gets the new destination exactly when the grant was missing, and no other node changes |
| AclIndex.ToMapElements | policymanagement/dmutilserver/src/ACLStorage.cpp:231-239 | a strictly sorted list stands for the map that holds exactly its nodes, each under its own URI |
| AclIndex.LessTotal | policymanagement/dmutilserver/src/ACLStorage.cpp:231-239 | the order of URIs is total; with LessIrreflexive and LessTransitive it is a strict order |
| AclIndex.LessTransitive | policymanagement/dmutilserver/src/ACLStorage.cpp:231-239 | the order of URIs is transitive |
| AclFiles.SaveIsAtomic | policymanagement/dmutilserver/src/ACLStorage.cpp:1076-1149 | wherever a save dies, loading reads either the old or the new content; the new one wins exactly when every operation was performed, the last being the deletion of the backup, or the rename of the temporary file when there was no storage file |
| AclFiles.FillEffect | policymanagement/dmutilserver/src/ACLStorage.cpp:1092-1122 | after the final size change the temporary file holds exactly the new content, whatever an earlier crash had left in it |
| AclFiles.RestoreKeeps | policymanagement/dmutilserver/src/ACLStorage.cpp:1155-1180 | replacing the storage file by a backup does not change what loading reads |
| AclFiles.FileServer.Perform | policymanagement/dmutilserver/src/ACLStorage.cpp:1076-1149 | one file operation is performed whole, or the process dies before it |
| AclNodes.AclNode.CreateAcl | policymanagement/dmutilserver/src/ACLStorage.cpp:518-607 | the object holds an entry for each piece of any text, in order and with its server identifier, and with its command type wherever the name is known; when all are, exactly the entries of the text |
| AclNodes.AclNode.GetAclString | policymanagement/dmutilserver/src/ACLStorage.cpp:269-290 | the text is the printed ACL, and the method panics exactly when it does not fit |
| AclNodes.AclNode.Length | policymanagement/dmutilserver/src/ACLStorage.cpp:367-382 | the length is that of the saved form |
| AclNodes.AclNode.SaveString | policymanagement/dmutilserver/src/ACLStorage.cpp:388-424 | the bytes are the saved form, as long as announced |
| AclNodes.AclNode.LoadFromString | policymanagement/dmutilserver/src/ACLStorage.cpp:430-478 | the object is the decoded node, and loading fails exactly where decoding does |
| AclNodes.AclNode.ClearAcl | policymanagement/dmutilserver/src/ACLStorage.cpp:310-324 | all commands are gone and nothing else has changed |
| AclNodes.AclNode.SetServerIdToAcl | policymanagement/dmutilserver/src/ACLStorage.cpp:333-361 | a command is granted to a server unless it already is |
| AclNodes.AclNode.SetCertificateToAcl | policymanagement/dmutilserver/src/ACLStorage.cpp:485-512 | a command is added for a certificate unless the node has it, and only then the destination changes |
| AclNodes.AclNode.FindCorrespondingCommand | policymanagement/dmutilserver/src/ACLStorage.cpp:245-262 | finds the first corresponding entry |
| AclNodes.AclNode.RemoveOthersOf | policymanagement/dmutilserver/src/ACLStorage.cpp:1028-1037 | the loop over the changing array leaves other servers' entries in order and the one kept object |
| AclStorage.RunsAreConsistent | policymanagement/dmutilserver/src/ACLStorage.cpp:1076-1217 | in every run of edits, saves, process starts and crashes between any two file operations, loading yields exactly the list of the last completed save, and the nodes in memory and on file stay strictly sorted |
| AclStorage.StepIsConsistent | policymanagement/dmutilserver/src/ACLStorage.cpp:1076-1217 | the same for one step |
| AclStorage.AclStorage.SearchInOrder | policymanagement/dmutilserver/src/ACLStorage.cpp:739-769 | binary search finds the node of a URI, or the place between the smaller and the larger ones |
| AclStorage.AclStorage.FindNode | policymanagement/dmutilserver/src/ACLStorage.cpp:739-769 | looks the URI up in the map, and inserts a new node at its place when asked to |
| AclStorage.AclStorage.RemoveNode | policymanagement/dmutilserver/src/ACLStorage.cpp:779-800 | the map loses that URI and nothing else, and says whether it was there |
| AclStorage.AclStorage.RemoveAcl | policymanagement/dmutilserver/src/ACLStorage.cpp:814-858 | nothing changes when the defaults cannot be restored in the tree |
| AclStorage.AclStorage.AddAclForNode | policymanagement/dmutilserver/src/ACLStorage.cpp:863-874 | the map changes at one URI, by one command of the session's certificate, and the clear flag is reset |
| AclStorage.AclStorage.SetAclForNode | policymanagement/dmutilserver/src/ACLStorage.cpp:879-891 | as AddAclForNode, with the clear flag set |
| AclStorage.AclStorage.UpdateAcl | policymanagement/dmutilserver/src/ACLStorage.cpp:956-1069 | for every text of a tree node: without the clear flag the entries of other servers are written back as they were read, with it every entry names the session's server; what is written is the stored node merged into what was read, the stored node keeps its value, and the method panics exactly when the text does not fit |
| AclStorage.AclStorage.SaveAcl | policymanagement/dmutilserver/src/ACLStorage.cpp:1076-1149 | performs the operations of a save in order, or dies where its budget ends |
| AclStorage.AclStorage.LoadAcl | policymanagement/dmutilserver/src/ACLStorage.cpp:1155-1217 | restores a backup, then holds exactly the nodes of the file |
| AclStorage.AclStorage.ReadNodes | policymanagement/dmutilserver/src/ACLStorage.cpp:1186-1212 | the countdown loop terminates and reads exactly the decoded nodes |
| DmUri.NumOfURISegs | policymanagement/pmdmadapter/src/nsmldmuri.cpp:203-214 | counts the pieces between separators |
| DmUri.URISeg | policymanagement/pmdmadapter/src/nsmldmuri.cpp:152-196 | pieces `location` to `location + count - 1` rejoined, nothing when out of range, and all the rest for a count below one |
| DmUri.ParentURI | policymanagement/pmdmadapter/src/nsmldmuri.cpp:31-51 | all pieces but the last, or the root URI |
| DmUri.LastURISeg | policymanagement/pmdmadapter/src/nsmldmuri.cpp:57-75 | the last piece, or the whole URI when its only separator comes first |
| DmUri.RemoveLastSeg | policymanagement/pmdmadapter/src/nsmldmuri.cpp:126-145 | all pieces but the last, or nothing |
| DmUri.RebuildIff | policymanagement/pmdmadapter/src/nsmldmuri.cpp:126-145 | the two halves and a separator rebuild the URI exactly when its last separator is not at index 0 and there is one |
| DmUri.RootReached | policymanagement/pmdmadapter/src/nsmldmuri.cpp:31-51 | walking up reaches the root URI after exactly as many steps as there are segments, one less when the first is the root URI itself, and stays there |
| DmUri.JoinSplit | policymanagement/pmdmadapter/src/nsmldmuri.cpp:203-214 | rejoining the pieces gives the URI back |
| DmUri.SplitJoin | policymanagement/pmdmadapter/src/nsmldmuri.cpp:203-214 | splitting rejoined pieces gives them back |
| DmUri.RunOfPieces | policymanagement/pmdmadapter/src/nsmldmuri.cpp:152-196 | any run of rejoined pieces is found again from its position, and all the rest for a count below one |
| DmUri.EndsOfPieces | policymanagement/pmdmadapter/src/nsmldmuri.cpp:31-145 | parent, front and last segment of rejoined pieces, with their exceptions for a single piece and a leading separator |
| Base64.DecodeBase64 | omaprovisioning/pnputil/src/PnpUtilImpl.cpp:578-640 | the loop over overlapping pairs computes the reading of groups of four, and refuses exactly what that refuses |
| Base64.AcceptedIsDecode | omaprovisioning/pnputil/src/PnpUtilImpl.cpp:578-640 | accepted are exactly the texts of a length divisible by four whose characters are in the alphabet, except an optional single pad at the very end; pairs and groups give the same bytes |
| Base64.DecodeEncodeIff | omaprovisioning/pnputil/src/PnpUtilImpl.cpp:591-613 | decoding inverts the encoding of section 4 of RFC 4648 exactly for lengths that are not one more than a multiple of three; the others are refused |
| Base64.EncodeDecodeIff | omaprovisioning/pnputil/src/PnpUtilImpl.cpp:578-640 | encoding inverts the decoder exactly on accepted texts whose unused bits are zero |
| Base64.EncodeChar | omaprovisioning/pnputil/src/PnpUtilImpl.cpp:649-677 | decoding a character inverts the alphabet |
| Base64.ValueOf | omaprovisioning/pnputil/src/PnpUtilImpl.cpp:649-677 | the alphabet inverts decoding a character |
| Base64.Alphabet | omaprovisioning/pnputil/src/PnpUtilImpl.cpp:649-677 | the alphabet is table 1 of RFC 4648 |
| Base64.TestVectors | omaprovisioning/pnputil/src/PnpUtilImpl.cpp:578-640 | the encoding has the values of the test vectors in section 10 of RFC 4648 |
| FotaTypes.TryCount | fotaapplication/fotaserver/src/FotaDB.cpp:419-455 | without a setting, or with a negative one, 4; otherwise one more than the setting, taken as 1 for 0 and as 1000 above that |
| FotaDb.Database.AddPackageState | fotaapplication/fotaserver/src/FotaDB.cpp:110-128 | the row is appended without a result |
| FotaDb.Database.GetAll | fotaapplication/fotaserver/src/FotaDB.cpp:134-163 | the identifiers of all rows in order |
| FotaDb.Database.GetState | fotaapplication/fotaserver/src/FotaDB.cpp:225-254 | the last row of the package, or what stands for no package; panics exactly when a stored URL is longer than the buffer |
| FotaDb.Database.SetState | fotaapplication/fotaserver/src/FotaDB.cpp:260-374 | exactly which of insertion, update, refusal and panic happens, the new rows, and the restarted count in the caller's copy |
| FotaDb.SetRefinesMap | fotaapplication/fotaserver/src/FotaDB.cpp:260-374 | a write of a real package keeps the identifiers unique and is an update of a map from identifier to row |
| FotaDb.RunRefinesMap | fotaapplication/fotaserver/src/FotaDB.cpp:260-374 | the same for every run of writes |
| FotaDb.GetAfterSet | fotaapplication/fotaserver/src/FotaDB.cpp:225-374 | for every write of a real package: when it takes effect, reading then shows exactly the named columns changed, and the restarted count if the state was named, or the whole first row without a result; otherwise, and for every other package, reading is as before |
| FotaDb.ColumnsAfterSet | fotaapplication/fotaserver/src/FotaDB.cpp:280-360 | column by column, for a stored package whose write takes effect: each named column gets its own value and every other keeps it |
| FotaDb.AbsentReads | fotaapplication/fotaserver/src/FotaDB.cpp:225-254 | a package without a row reads as an idle one without a result |
| FotaDb.AbsentIdDuplicates | fotaapplication/fotaserver/src/FotaDB.cpp:268-271 | identifier -1 stands for no package, so writing it twice inserts two rows |
| FotaDb.LookupIsTable | fotaapplication/fotaserver/src/FotaDB.cpp:225-254 | reading is looking up in the map |
| FotaSql.DetermineCharNeeded | fotaapplication/fotaserver/src/FotaDB.cpp:381-413 | the sum of the sizes reserved for the named columns |
| FotaSql.Build | fotaapplication/fotaserver/src/FotaDB.cpp:280-360 | the statement is completed exactly when all values are in range and all texts fit, and then it is the comma-separated assignments in column order between the fixed parts; otherwise it is refused or panics, as the columns before the first value out of range decide |
| FotaSql.ShortNumbersFit | fotaapplication/fotaserver/src/FotaDB.cpp:280-413 | with values in range, other numbers of at most 6 characters and an identifier of at most 8, no append overruns, whatever the columns and the lengths of texts; the package size may have ten digits |
| FotaSql.ProfileFitsIff | fotaapplication/fotaserver/src/FotaDB.cpp:389-390 | for a single number the bound is one character longer, and exact |
| FotaSql.TerminatedIsSeparated | fotaapplication/fotaserver/src/FotaDB.cpp:351-355 | dropping the trailing comma leaves commas between the assignments only |
| FotaSql.AssignmentTexts | fotaapplication/fotaserver/src/FotaDB.cpp:296-349 | each column is assigned the member of the row that it is named after, numbers plain and texts quoted |
| FotaSql.AcceptedIff | fotaapplication/fotaserver/src/FotaDB.cpp:296-349 | exactly which values an update accepts |
| FotaAlert.JobBudget | fotaapplication/fotaserver/src/FotaServer.cpp:476-583 | between two writes that restart a package's count, over any number of server restarts and any changes of the setting, the jobs created for it are at most (1 + attempts in a row) for each try, stored or held by a report that waits for the network, and the attempts left in a session open at the first |
| FotaAlert.BudgetIsAttained | fotaapplication/fotaserver/src/FotaServer.cpp:978-1022 | the bound is exact: from every state in which the package's URL and identifier fit their buffers and its count has at most six digits, some run creates that many jobs |
| FotaAlert.StoredBudgetIff | fotaapplication/fotaserver/src/FotaServer.cpp:476-583 | the stored tries alone bound the jobs exactly when no report that waits for the network holds more tries than the table |
| FotaAlert.LoweredSettingExceeds | fotaapplication/fotaserver/src/FotaDB.cpp:419-455 | a state in which they do not: the setting is lowered while a report waits, two tries are stored, and twenty jobs follow instead of eight |
| FotaAlert.OutOfTriesGoesIdle | fotaapplication/fotaserver/src/FotaServer.cpp:518-531 | a report with no try left creates no job and moves the package to idle with result -1 and a restarted count, exactly when the stored URL and the identifier fit their buffers; otherwise its row stays |
| FotaAlert.EndOfJob | fotaapplication/fotaserver/src/FotaServer.cpp:1968-2050 | the end of the current job by success leaves no attempt and no timer; every other end keeps the attempts and starts the timer exactly when some are left; another job's end changes nothing |
| FotaAlert.SuccessIsFinal | fotaapplication/fotaserver/src/FotaServer.cpp:1968-2050 | over every run: after a success no job is created for any package until the server is started anew |
| FotaAlert.ReportCreatesJob | fotaapplication/fotaserver/src/FotaServer.cpp:476-583 | once the network is found a report opens its session exactly when its package can be written, spends one try in memory and table on one job of that package, and may try again only with a usable access point; otherwise that job is the last until the next start |
| FotaAlert.TimerSpends | fotaapplication/fotaserver/src/FotaServer.cpp:978-1022 | the retry timer spends one attempt on a job for the package of the session, or closes the session |
| FotaAlert.StepKeepsInv | fotaapplication/fotaserver/src/FotaServer.cpp:476-583 | every step, with any setting at its time, keeps the rows unique, the package in memory a stored one, attempts only in an open session whose job is the last created, and the retry timer only for attempts left |
| FotaAlert.FotaServer.CreateDeviceManagementSession | fotaapplication/fotaserver/src/FotaServer.cpp:476-583 | for any state of the caller: waits for the network, leaves for an open session, spends a try on a job, or moves the package to idle; a write that does not fit is the death of the server, with the table unchanged |
| FotaAlert.FotaServer.ReportNetworkStatus | fotaapplication/fotaserver/src/FotaServer.cpp:2313-2335 | reports once when the network is available, and forgets it; or the server dies in the write |
| FotaAlert.FotaServer.OnSyncMLSessionEvent | fotaapplication/fotaserver/src/FotaServer.cpp:1968-2050 | the end of the current job clears the attempts on success, and starts the retry timer while attempts are left |
| FotaAlert.FotaServer.DoCloseSMLSession | fotaapplication/fotaserver/src/FotaServer.cpp:978-1022 | spends an attempt on another job, or closes the session |
| FotaBoot.Recovery.ClientAwareConstruct | fotaapplication/fotaserver/src/FotaServer.cpp:728-830 | for every table with unique identifiers: the server survives exactly when every stored URL fits 256 bytes and every row that the start writes has an identifier of at most 8 characters; the rows before the first other one are changed as their states and the circumstances demand, all rows if there is none, and the rest stay |
| FotaBoot.PassGetsThrough | fotaapplication/fotaserver/src/FotaServer.cpp:728-830 | without such a row the whole table is changed |
| FotaBoot.NoStartPanicsIff | fotaapplication/fotaserver/src/FotaServer.cpp:728-830 | exactly when no start panics, whatever it finds: the URLs fit, and so do the identifiers of the packages in the five states that some start writes |
| FotaBoot.LongUrlStopsEveryStart | fotaapplication/fotaserver/src/FotaServer.cpp:734-740 | a stored URL longer than 256 bytes makes the server panic at every later start, over any series of starts, and that row and all after it are never recovered |
| FotaBoot.BootClearsTransient | fotaapplication/fotaserver/src/FotaServer.cpp:734-832 | with no active download and no result file no row is left starting a download or updating; idle, complete and finished rows keep everything but the reason of a failed download |
| FotaBoot.TransientRowsIff | fotaapplication/fotaserver/src/FotaServer.cpp:764-800 | exactly which transient states survive a start |
| FotaBoot.BootTwiceIff | fotaapplication/fotaserver/src/FotaServer.cpp:742-773 | a second start changes nothing, except after a changed software version when an update was in progress; a third never does |
| FotaBoot.StateAfterBoots | fotaapplication/fotaserver/src/FotaServer.cpp:734-832 | the state of a package after any series of starts without an active download or a result file, in closed form: what the starts can and cannot change, and when |
| FotaBoot.BootOutcome | fotaapplication/fotaserver/src/FotaServer.cpp:734-832 | state, result and count of a row after a start, and that nothing else of it changes |
| FotaBoot.Recovery.ExecuteUpdateResultFile | fotaapplication/fotaserver/src/fotaupdate.cpp:252-281 | every row in update gets the outcome, every other row stays; the server survives exactly when every stored URL fits and every row in update has an identifier of at most 8 characters, and else the rows before the first other one are written |
| FotaBoot.OutcomeOf | fotaapplication/fotaserver/src/fotaupdate.cpp:174-250 | success without data for code 0, failure without data for every other; successful exactly for 0, corrupted for 3 and 4, mismatch for 5, failed for the rest |
| FotaBoot.ResultAfterBoot | fotaapplication/fotaserver/src/fotaupdate.cpp:252-281 | after a start with a result file, executing it moves exactly the rows that were in update to success or failure without data |
| FotaBoot.Recovery.ResetFotaState | fotaapplication/fotaserver/src/FotaServer.cpp:2128-2200 | the final states become idle without a result, a complete download is ready for the update with its result kept, and the package is deleted exactly for a failed download or update; the server survives exactly when the URL fits, and the identifier if the row is written; a package without a row is left alone |
| FotaBoot.UpdateEndsIdle | fotaapplication/fotaserver/src/FotaServer.cpp:2128-2200 | an update in progress ends idle after start, result file and clean-up |
| FotaBoot.CleanedOutcome | fotaapplication/fotaserver/src/FotaServer.cpp:2128-2200 | which states become idle without a result, that a complete download is ready with its result kept, and that a second clean-up finds nothing to do |
| FotaDownload.RestartsExactly | fotaapplication/fotaserver/src/FotaDlMgrClient.cpp:330-372 | between two resets, over any events, failed writes and server restarts, the restarts number exactly the failed resumes, but at most one less than the count |
| FotaDownload.RestartsBounded | fotaapplication/fotaserver/src/FotaServer.cpp:2202-2292 | after a requested download at most two restarts follow, whatever happens, and each later failed resume fails the download with a result other than -1 |
| FotaDownload.ReasonKeptIff | fotaapplication/fotaserver/src/FotaDlMgrClient.cpp:226-306 | every step, whether or not its write succeeds, keeps a reason with a failed download, except exactly one: the management server starting this server after a download was cut off while starting |
| FotaDownload.AlwaysReasonedIff | fotaapplication/fotaserver/src/FotaDlMgrClient.cpp:226-572 | over a whole run, every state has a reason for a failed download exactly when no such start is among the events |
| FotaDownload.EventOutcome | fotaapplication/fotaserver/src/FotaDlMgrClient.cpp:460-558 | a finished download is complete, resumable after trouble with memory or network, or failed with a reason; the table has the outcome, or keeps its row when it could not be written |
| FotaDownload.SubmitOutcome | fotaapplication/fotaserver/src/FotaDlMgrClient.cpp:226-306 | state and reason after each way of submitting a download, the counter that is reset, and when the download is active |
| FotaDownload.ExhaustedOutcome | fotaapplication/fotaserver/src/FotaDlMgrClient.cpp:354-366 | a resume that fails with no restart left fails the download and keeps a known reason |
| FotaDownload.ProgressOutcome | fotaapplication/fotaserver/src/FotaDlMgrClient.cpp:409-430 | the row gets the descriptor's size, and its name and version if they fit, each in its own column, and keeps its result |
| FotaDownload.InterruptOutcome | fotaapplication/fotaserver/src/FotaDlMgrClient.cpp:563-632 | which interrupts fail the download, which leave it resumable, each with its reason, and which change nothing |
| FotaDownload.FinalizeAndReboot | fotaapplication/fotaserver/src/FotaServer.cpp:890-952 | the finalizer makes the table agree with memory, and a restart makes memory agree with the recovered row |
| FotaDownload.ActiveIff | fotaapplication/fotaserver/src/FotaDlMgrClient.cpp:708-711 | exactly which steps leave a download active |
| FotaDownload.MapDownloadErrors | fotaapplication/fotaserver/src/FotaDlMgrClient.cpp:637-702 | every error maps to a reason, and exactly which errors map to each |
| FotaDownload.StoreIsWrite | fotaapplication/fotaserver/src/FotaDlMgrClient.cpp:513-518 | storing is the table write of FotaDb that names these columns, whenever that takes effect |
| FotaDownload.DownloadManagerClient.TryResumeDownloadL | fotaapplication/fotaserver/src/FotaDlMgrClient.cpp:330-372 | resumes, or restarts while the count allows it, or fails the download; a failed write of a restart leaves |
| FotaDownload.DownloadManagerClient.DownloadL | fotaapplication/fotaserver/src/FotaDlMgrClient.cpp:226-306 | what each outcome of submitting a download, and of its write, leaves in memory and in the table; after a failed write the download is not active |
| FotaDownload.DownloadManagerClient.StartDownloadProgress | fotaapplication/fotaserver/src/FotaDlMgrClient.cpp:409-436 | the download progresses, with the descriptor's size, and its name and version where they fit; the result stays, and a failed write is ignored |
| FotaDownload.DownloadManagerClient.HandleDownloadEvent | fotaapplication/fotaserver/src/FotaDlMgrClient.cpp:460-558 | what each end of a download leaves in memory and, whether or not the write succeeds, in the table |
| FotaDownload.DownloadManagerClient.HandleClientInterrupt | fotaapplication/fotaserver/src/FotaDlMgrClient.cpp:563-632 | what each interrupt by the user leaves in memory and, whether or not the write succeeds, in the table |
| FotaDownload.DownloadManagerClient.DecrementDownloadRestartCount | fotaapplication/fotaserver/src/FotaServer.cpp:2268-2292 | counts down to zero and says whether any restart is left |
| DeviceDialog.NeverTwice | devicemgmtnotifications/dmdevdialogserver/src/dmdevicedialogserver.cpp:147-275 | in every run in which no alert is answered while track is lost, no message is completed twice, the message of a shown question is open, that of a shown alert exactly unless track is lost, and the pending count is the number of admitted open messages and of the requests that failed on the way to their dialog |
| DeviceDialog.NoneTwiceIff | devicemgmtnotifications/dmdevdialogserver/src/dmdevicedialogserver.cpp:147-275 | exactly which runs complete some message twice: those in which an alert is answered after a step that lost track of a message, with no message stored in between |
| DeviceDialog.LossIsFelt | devicemgmtnotifications/dmdevdialogserver/src/dmdevicedialogserver.cpp:349-461 | every such step is felt: if the user answers next, a message is completed twice |
| DeviceDialog.LeakedIsFailed | devicemgmtnotifications/dmdevdialogserver/src/dmdevicedialogsession.cpp:142-234 | the failed launches that the count includes are the admitted requests of the run whose profile could not be opened |
| DeviceDialog.StepKeepsIff | devicemgmtnotifications/dmdevdialogserver/src/dmdevicedialogserver.cpp:349-461 | exactly which step loses track of a message: a session whose profile cannot be opened, asked for while an alert is shown |
| DeviceDialog.CompletedTwice | devicemgmtnotifications/dmdevdialogserver/src/dmdevicedialogserver.cpp:417-423 | a run of three events that completes one message twice |
| DeviceDialog.BusyWhileQuery | devicemgmtnotifications/dmdevdialogserver/src/dmdevicedialogsession.cpp:99-128 | while the question is shown every permitted request but the cancel is answered as busy, and nothing else happens |
| DeviceDialog.RequestIsAnswered | devicemgmtnotifications/dmdevdialogserver/src/dmdevicedialogsession.cpp:99-234 | what each request is answered with at once, which three kinds are stored for the user instead, and that a cancel also answers the pending question |
| DeviceDialog.AnswerIsSent | devicemgmtnotifications/dmdevdialogserver/src/dmdevicedialogserver.cpp:147-275 | an answer completes the stored message and no other: a confirmation with the user's own code, an information with success, a declined question as cancelled, an accepted one with success once its job is started |
| DeviceDialog.AnswerReachesAsker | devicemgmtnotifications/dmdevdialogserver/src/dmdevicedialogserver.cpp:147-275 | over every run: while no alert has been answered with track lost, the answer to a dialog completes the message of the request that put that dialog up, with that code |
| DeviceDialog.FailedLaunchKeepsServer | devicemgmtnotifications/dmdevdialogserver/src/dmdevicedialogsession.cpp:30-39 | after a failed launch no session that ends asks the server to stop |
| DialogScreens.ScreenFollows | devicemgmtnotifications/dmdevdialogserver/src/dmdevicedialogserver.cpp:147-275 | exactly what every event makes of the shown dialog, of the flags, of the job, and of the request to close |
| DialogScreens.NeverCloses | devicemgmtnotifications/dmdevdialogserver/src/dmdevicedialogserver.cpp:466-477 | over every run: a request to close that has been taken back is never made again, so the server stays |
| DeviceDialog.DialogServer.ServiceRequest | devicemgmtnotifications/dmdevdialogserver/src/dmdevicedialogsession.cpp:99-128 | refuses, answers as busy, or dispatches |
| DeviceDialog.DialogServer.DispatchMessage | devicemgmtnotifications/dmdevdialogserver/src/dmdevicedialogsession.cpp:142-234 | what each request does to messages and dialogs |
| DeviceDialog.DialogServer.DevDialogResponse | devicemgmtnotifications/dmdevdialogserver/src/dmdevicedialogserver.cpp:147-275 | what each answer of the user does to messages and dialogs |
| DeviceDialog.DialogServer.LaunchPkgZeroNote | devicemgmtnotifications/dmdevdialogserver/src/dmdevicedialogserver.cpp:349-461 | stores the message, and shows the question unless it leaves |
| DeviceDialog.DialogServer.CancelPendingServerAlert | devicemgmtnotifications/dmdevdialogserver/src/dmdevicedialogserver.cpp:720-731 | completes the pending question as cancelled, if there is one |
| DeviceDialog.DialogServer.Dismiss | devicemgmtnotifications/dmdevdialogserver/src/dmdevicedialogserver.cpp:505-525 | takes the connection dialog or the indicator away |
| DeviceDialog.DialogServer.ShowConnectDialogAgain | devicemgmtnotifications/dmdevdialogserver/src/dmdevicedialogserver.cpp:562-595 | shows the connection dialog while a job goes on without it |
| DeviceDialog.DialogServer.OnSyncMLSessionEvent | devicemgmtnotifications/dmdevdialogserver/src/dmdevicedialogserver.cpp:482-500 | the end of the job dismisses the dialog and stops the server |
| FmsMonitor.RunsKeepOneMonitor | fotaapplication/fmserver/src/fmsserver.cpp:506-516 | in every state of every run, while the scheduler runs, the session count is 0 or 1, and an armed active object, connection notification or network poll, or a pending call-end timer, implies that it is 1 |
| FmsMonitor.BusyMonitor | fotaapplication/fmserver/src/fmsserversession.cpp:105-132 | once a monitor is armed, and at every later state until the service stops, the slot is taken, the record keeps its reason, and every permitted request but the cancel is refused without any effect |
| FmsMonitor.NetworkTimerLeavesSlotFree | fotaapplication/fmserver/src/fmsserver.cpp:572-588 | a pending network timer, in contrast, leaves the slot free |
| FmsMonitor.WaitsUntilFulfilled | fotaapplication/fmserver/src/fmsinterruptaob.cpp:166-331 | over every run: what is waited for does not change, and the wait is neither ended early nor given up, until the condition holds when the active object runs or a session that stops the server ends; and that ends it |
| FmsMonitor.ChargerAwaited | fotaapplication/fmserver/src/fmsinterruptaob.cpp:228-246 | without the charger the monitor stays as it is; with it the service stops, or waits for the network if that is monitored and missing |
| FmsMonitor.SpaceAwaited | fotaapplication/fmserver/src/fmsinterruptaob.cpp:290-325 | while space is critical the monitor stays as it is; a failed watch stops the service; with space it goes on as with the charger |
| FmsMonitor.WlanAwaited | fotaapplication/fmserver/src/fmsinterruptaob.cpp:247-289 | a WLAN is waited for until it is available or turns out not to be supported |
| FmsMonitor.CallOrBatteryAwaited | fotaapplication/fmserver/src/fmsinterruptaob.cpp:166-227 | exactly when the end of a call and the level of the battery end the wait |
| FmsMonitor.NetworkWait | fotaapplication/fmserver/src/fmsinterruptaob.cpp:73-161 | which network is waited for by which means, and when the service stops instead |
| FmsMonitor.ChargerOrSpaceWait | fotaapplication/fmserver/src/fmsinterruptaob.cpp:73-161 | when the charger and the space are waited for, and when the service stops or leaves instead |
| FmsMonitor.BatteryRequest | fotaapplication/fmserver/src/fmsserver.cpp:611-620 | a battery request waits exactly while the level is lower; a level out of range takes the slot with nothing armed |
| FmsMonitor.CallEndRequest | fotaapplication/fmserver/src/fmsserver.cpp:667-700 | without a call the slot stays free; with one the timer arms the monitor, unless telephony fails, and then the slot stays taken with nothing armed |
| FmsMonitor.NetworkTimerFires | fotaapplication/fmserver/src/fmsserver.cpp:66-94 | the timer of a network request starts the wait in a free slot, and changes nothing else in a taken one |
| FmsMonitor.NetworkReported | fotaapplication/fmserver/src/fmsinterruptaob.cpp:647-762 | a report or poll of the network stops the service exactly when the network is there |
| FmsMonitor.InterruptRecorded | fotaapplication/fmserver/src/fmsserversession.cpp:145-300 | which reason a request for an interrupt leaves in the record |
| FmsMonitor.InterruptStarts | fotaapplication/fmserver/src/fmsserversession.cpp:145-300 | what such a request starts, and when its session stops the server instead |
| FmsMonitor.InterruptSurvivesRestart | fotaapplication/fmserver/src/fmsserversession.cpp:145-330 | a memory interrupt, and one of a mobile network, are waited for again by the service that starts with the phone |
| FmsMonitor.StartResumes | fotaapplication/fmserver/src/fmsserversession.cpp:145-330 | what that service does with each recorded reason |
| FmsMonitor.StartWithoutRecord | fotaapplication/fmserver/src/fmsserver.cpp:225-259 | without a record the network is polled exactly when it is to be waited for and the phone is on line |
| FmsMonitor.SessionStopsIff | fotaapplication/fmserver/src/fmsserversession.cpp:105-381 | exactly when the end of a session will stop the server, for every request, and that refused requests change no monitor |
| FmsMonitor.SessionSteps | fotaapplication/fmserver/src/fmsserversession.cpp:36-58 | a session begins without the flag, and its end stops the service exactly when the flag is set |
| FmsMonitor.CancelStops | fotaapplication/fmserver/src/fmsserversession.cpp:105-132 | a cancel is admitted at any time, and the end of its session then stops the service |
| FmsMonitor.StartL | fotaapplication/fmserver/src/fmsinterruptaob.cpp:73-161 | starting a monitor never frees the slot while the scheduler runs, and writes no record |
| FmsMonitor.RunL | fotaapplication/fmserver/src/fmsinterruptaob.cpp:166-331 | an active object that completes keeps the slot or stops the service, and writes no record |
| FmsMonitor.StartMonitoring | fotaapplication/fmserver/src/fmsserver.cpp:506-516 | takes the slot exactly when it is free, and otherwise changes nothing |
| FmsMonitor.StartBattery | fotaapplication/fmserver/src/fmsserver.cpp:611-620 | as StartMonitoring, also when the level is refused |
| FmsMonitor.FmsServer.Start | fotaapplication/fmserver/src/fmsinterruptaob.cpp:73-161 | arms the monitor of an interrupt, stops the service, or leaves |
| FmsMonitor.FmsServer.Run | fotaapplication/fmserver/src/fmsinterruptaob.cpp:166-331 | waits again, goes on to the network, or stops the service |
| FmsMonitor.FmsServer.StartBatteryMonitoringL | fotaapplication/fmserver/src/fmsinterruptaob.cpp:767-813 | compares the battery, and waits if it is too low |
| FmsMonitor.FmsServer.StartCallEndMonitoringL | fotaapplication/fmserver/src/fmsinterruptaob.cpp:957-995 | waits for the end of the call unless something is armed |
| FmsMonitor.FmsServer.HandleConditionMet | fotaapplication/fmserver/src/fmsinterruptaob.cpp:852-917 | goes on, or waits for the network without a new record |
| FmsMonitor.FmsServer.DispatchMessageL | fotaapplication/fmserver/src/fmsserversession.cpp:145-381 | what each request does to the monitor and to the session's flag for stopping the server |
| FmsMonitor.FmsServer.ServiceL | fotaapplication/fmserver/src/fmsserversession.cpp:105-132 | admits a request only when nothing is pending, or when it is the cancel |
| FmsMonitor.FmsServer.LogRequest | fotaapplication/fmserver/src/fmsserver.cpp:66-94 | a request timer starts its monitor once |
| FmsRecord.RoundTrip | fotaapplication/fmserver/src/fmsserver.cpp:289-397 | from an empty file every record that fits 30 bytes comes back, each member in its place, negative numbers included |
| FmsRecord.ReadAfterWriteIff | fotaapplication/fmserver/src/fmsserver.cpp:289-397 | exactly when reading gives the record back although the write does not cut the file: no digit of the old content follows it, or only zeros after a flag of zero |
| FmsRecord.RecordFile.WriteToFile | fotaapplication/fmserver/src/fmsserver.cpp:289-323 | writes nothing while a request is pending, panics exactly when the record does not fit, and otherwise overwrites the front of the file |
| FmsRecord.RecordFile.ReadFromFile | fotaapplication/fmserver/src/fmsserver.cpp:328-397 | the two alternating buffers yield the fields in order, up to the first that is empty or missing |
| FmsRecord.FollowedByDigitsIff | fotaapplication/fmserver/src/fmsserver.cpp:334-390 | what follows a printed number changes the value read exactly when it starts with digits, zeros after a zero excepted |
| FmsRecord.RecordText | fotaapplication/fmserver/src/fmsserver.cpp:289-323 | the order of the members in the record's text |

## Left out

- Windows, menus, texts, translations, notifiers and bitmaps: only which dialog is shown and how the user answers is kept.
- Client stubs, server start-up, secure-identifier lists, command factories and logging: plumbing.
- The download manager, SyncML sessions and jobs, telephony, schedulers and the connection monitor: their results are arbitrary.
- 3DES, RSA and SHA-1, the network name formatting table, random characters and the variation bits: not part of this model.
- The passcode and device capability servers: small update lists.
- Running out of memory inside a function: assumed not to happen; only the save protocol is crashed at every step.
- AclStorage.AclStorage.UpdateAcl: rewrites the text of one tree node; walking to its children for the other destinations, and reading and writing the tree, are parameters.
- AclStorage.AclStorage.SearchInOrder: the ordered array search of the platform is modelled as binary search over strictly sorted URIs; the first and last positions of equal keys do not arise.
- AclNodes.AclNode.CreateAcl: an unknown command name leaves the command type of its entry undetermined in the code, and in the contract.
- AclStorage.AclStorage.SaveAcl: requires that the total length fits a 32-bit integer, beyond which the code's length fields wrap.
- AclRecord.DecodeEncodeFile: bytes that no save produces are an error here; the code panics or reads a node from too few bytes.
- FotaDb.Database.SetState: the database engine is taken to update every row with the identifier, and quotes inside texts are not treated; package sizes are below two gigabytes.
- FotaBoot.Recovery.ClientAwareConstruct: the reports that the loop starts are modelled in FotaAlert; identifiers are unique, as FotaDb.RunRefinesMap keeps them.
- FotaAlert.JobBudget: only reporting writes the count of tries without the state, as in the code.
- FotaDownload.RestartsExactly: access to the repository succeeds; otherwise the count in the code is undetermined.
- FotaDownload.DownloadManagerClient.DownloadL: the write that the server makes before it is an arbitrary table write of FotaDb; a panic in a write is the event Reboot.
- DeviceDialog.NeverTwice: does not say that every message is completed, because a replaced alert's message can be dropped.
- DeviceDialog.DialogServer.DevDialogResponse: an answer is always to the dialog that is shown; writing the reply to the client is taken to succeed.
- FmsMonitor.BusyMonitor: the sessions' own flags and the record's numbers other than the reason are kept apart from the monitor; the record's numbers are modelled in FmsRecord.
- Starting an update (battery, call and user checks before the update agent runs) and choosing an access point: not part of this model; the states they write are arbitrary table writes.
- Infinite postponement: the code turns the count -1 into 0, and nothing is claimed about it.
