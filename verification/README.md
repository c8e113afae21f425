# A verified model of the INFRA-W server

INFRA-W stores hosts in folders and organizations and brokers live terminal and desktop sessions. This
project models the parts of its Node server whose correctness spans several functions or several steps, in
Dafny 4.11, and proves what they are for. `dafny verify dfyconfig.toml` checks everything; nothing here
executes the server.

A database table is a map from ids to records, and a database request is one atomic step. Where the source
updates rows or fields, the model has a class whose methods do the same statement by statement; each such
method is proved equal to a function on values, and the laws are proved about those functions and about
every run of them. Time, fresh ids, replies of other machines and the answers of unordered queries are
parameters that may take any value the real ones can.

| file | what it models |
|---|---|
| `Forest.dfy`, `Lists.dfy`, `Wrappers.dfy` | parent graphs, spliced lists and ordered queries, optional values |
| `Directory.dfy`, `DirectoryTables.dfy`, `DirectoryLaws.dfy`, `DirectoryAccess.dfy` | the folder and entry tables, their operations row by row, their invariants over runs, and exactly when a request is accepted |
| `Listing.dfy`, `ListingTables.dfy`, `ListingLaws.dfy` | the forest of nested arrays that is shown to a user |
| `Sessions.dfy`, `SessionManager.dfy`, `SessionLaws.dfy`, `SessionEffects.dfy` | live sessions, sharing, removal and the election of a master connection, as a transition system with every interleaving; what never happens, and what each step achieves |
| `DesktopRecordings.dfy` | how often removals finalise the recording of a desktop session |
| `SftpDelete.dfy` | recursive deletion over SFTP by counting callbacks |
| `ScriptText.dfy`, `Shell.dfy`, `LdapFilter.dfy`, `AuditCsv.dfy` | the printers of the server, each with the reader it must satisfy |
| `Utf8.dfy`, `Chunks.dfy` | bytes that arrive in chunks of any size, each decoded by itself |
| `Guacd.dfy`, `GuacdStream.dfy`, `GuacdHandshake.dfy`, `GuacdMessages.dfy` | the client of guacd, its reply to the handshake, the instructions it recognises, and what the cuts of its stream change |
| `ScriptStream.dfy`, `ScriptDirectives.dfy`, `ScriptCuts.dfy` | the lines of a running script, which of them are directives, and what the cuts of its output change |
| `LogBuffer.dfy` | the replay buffer of a terminal |
| `Netbox.dfy` | reconciliation with an external inventory |
| `Organizations.dfy`, `OrganizationEffects.dfy` | membership, ownership and its hand-over; exactly when a call takes effect |
| `SignIn.dfy`, `Broadcaster.dfy`, `BroadcasterEffects.dfy` | sign-in sessions, and the sockets that are told about them |
| `Commands.dfy` | ordered lists of snippets and scripts |

## Where the code falls short of its promise

The model follows the code. In these places a natural expectation, or the documentation, is not met; the
lemmas named give a case, and the exact condition or the exact effect.

- `docs/integrations.md:52` says that held NetBox removals are held again by every sync until approved. Hosts
  created by the holding sync count as managed in the next one, so the next one may delete without approval:
  `Netbox.HeldRemovalSlipsThrough`, and exactly when in `Netbox.NextSync`.
- Moving an organization folder under a personal folder of somebody else is accepted
  (`server/controllers/folder.js:213`): `DirectoryLaws.OwnersNeedNotAgree`, `DirectoryLaws.EditKeepsOwnersIff`.
- Deleting a folder ignores refused subfolders (`server/controllers/folder.js:145`) and then removes their
  parent: `DirectoryLaws.DeleteCanOrphan`, `DirectoryLaws.DeleteIsCompleteIff`.
- Editing an entry into another folder keeps its links to the former organization's identities, which moving
  its folder or repositioning it would remove: `DirectoryLaws.EditEntryKeepsStaleLinks`,
  `DirectoryLaws.EditEntryUnlinksIff`.
- A quoted script option that ends in a blank is not read back: `ScriptText.BlankAtTheEnd`,
  `ScriptText.DialogReadsBackIff`.
- Each received buffer is decoded by itself (`server/lib/GuacdClient.js:66`, `server/lib/ScriptLayer.js:75`), so a
  character split by a cut becomes replacement characters: `Utf8.SplitAccent`. Exactly the cuts between characters
  are harmless: `Utf8.CutsAreHarmlessIff`, `GuacdHandshake.SplitFromTheStartIff`, `GuacdStream.SplitCharactersShowIff`,
  `ScriptCuts.SplitCharactersShowIff`.
- A chunk of script output that holds a password prompt is dropped with every line in it
  (`server/lib/ScriptLayer.js:79`): `ScriptCuts.PromptSwallowsLine`, `ScriptCuts.CutsAgreeIff`.
- What the chunk of a script's end marker holds besides is still handled, what comes later is not:
  `ScriptCuts.AfterEndChunksShow`, `ScriptCuts.EndInChunk`, `ScriptCuts.PromptFreeCutsAgreeIff`.
- Instructions that arrive in the chunk of a guacd error are dropped with it, earlier ones are forwarded:
  `GuacdStream.ErrorSwallowsItsChunk`, `GuacdStream.CutsAgreeIff`.
- Removals of one session that overlap finalise its desktop recording once each
  (`server/lib/SessionManager.js:269-271`): `DesktopRecordings.OverlappingRemovals`, `DesktopRecordings.DesktopOnceIff`.
- A socket message makes an idle sign-in session usable again if it comes before the sweep
  (`server/middlewares/wsAuth.js:54`): `SignIn.MessageRevives`.
- Duplicating a managed host copies its external id (`server/controllers/entry.js:422-426`). The copy survives
  every sync and goes stale: `Netbox.CopyGoesStale`, `Netbox.DuplicatesStay`; exactly when each listed host has one
  row in `Netbox.OneRowIff`, and exactly when a repeated sync changes nothing in `Netbox.NextSyncIsIdleIff`.

## Model

| member | source | states |
|---|---|---|
| `Forest.AcyclicIffRanked` | server/controllers/folder.js:239-250 | a parent graph is acyclic exactly when its folders can be ranked; this is what makes the ancestor walk and both recursions end |
| `Forest.AcyclicAfterMove` | server/controllers/folder.js:239-250 | moving a folder keeps the graph acyclic if and only if the target is not the folder itself or inside its subtree |
| `Forest.SubtreeShrinks` | server/controllers/folder.js:67-71 | the measure of both recursions over subfolders: the subtree of a child is strictly smaller |
| `Forest.AncestorsShrink` | server/controllers/folder.js:239-250 | the measure of the ancestor walk: a parent has strictly fewer ancestors |
| `Forest.SiblingsDisjoint` | server/controllers/folder.js:67-71 | subtrees of different subfolders share no folder, so the order of the recursion does not matter |
| `DirectoryLaws.ReachableWellFormed` | server/controllers/folder.js:74-278 | after every run of the folder and entry operations from empty tables, with any change of memberships and identities in between, the parent graph is acyclic, every existing parent has its child's organization, every entry has its folder's, and every row has either an owner or an organization |
| `DirectoryLaws.StepKeeps` | server/controllers/entry.js:91-646 | each single operation keeps that invariant |
| `DirectoryLaws.EditFolderKeeps` | server/controllers/folder.js:166-278 | an accepted or refused folder edit keeps the invariant, moves across organizations included |
| `DirectoryLaws.MoveChangesExactlyTheSubtree` | server/controllers/folder.js:50-72 | a move that changes the organization re-owns exactly the folders and entries below the moved folder and no other row |
| `DirectoryLaws.MoveUnlinksExactlyTheSubtree` | server/controllers/folder.js:13-48 | after leaving an organization no entry of the subtree is linked to one of its identities and none of its live sessions remains; every other link and session stays |
| `DirectoryLaws.EditKeepsOwnersIff` | server/controllers/folder.js:211-249 | an edit keeps every child folder with its parent's owner if and only if it does not put an organization folder under somebody else's personal folder |
| `DirectoryLaws.OwnersNeedNotAgree` | server/controllers/folder.js:213-218 | a concrete accepted move after which a folder and its parent have different owners |
| `DirectoryLaws.DeleteIsCompleteIff` | server/controllers/folder.js:143-146 | a delete removes the whole subtree if and only if the account may delete every folder in it, because the result of the recursive call is ignored |
| `DirectoryLaws.DeleteTakesSubtree` | server/controllers/folder.js:127-164 | while owners agree, a permitted delete removes exactly the folders and entries of the subtree and leaves no orphan |
| `DirectoryLaws.DeleteCanOrphan` | server/controllers/folder.js:143-146 | a concrete delete that leaves a folder whose parent row is gone |
| `DirectoryLaws.RepositionUnlinks` | server/controllers/entry.js:603-629 | moving an entry out of its organization by repositioning drops its links and sessions there and no other entry's |
| `DirectoryLaws.EditEntryUnlinksIff` | server/controllers/entry.js:183-254 | an entry edit leaves no link to the former organization's identities if and only if there was none, or the request replaces the identities by ones of other scopes |
| `DirectoryLaws.EditEntryKeepsStaleLinks` | server/controllers/entry.js:183-254 | a concrete edit that takes an entry out of its organization and keeps it linked to the organization's identity |
| `DirectoryLaws.RepositionOrder` | server/controllers/entry.js:576-601 | read back by position, the scope is the old order with the entry taken out and put next to its target (or last), numbered 0..n-1 |
| `DirectoryAccess.EditAcceptedIff` | server/controllers/folder.js:166-278 | a folder edit is accepted if and only if the account may use the folder, may use the place it goes to and is an active member of an organization that a personal folder is given to, and the target is not in the subtree; the error 400 is answered exactly for the last reason, and a refused edit changes nothing |
| `DirectoryAccess.EditedFolderIs` | server/controllers/folder.js:166-278 | name, owner, organization and parent of the edited row, in terms of the request and the target |
| `DirectoryAccess.EditNeedsMembership` | server/controllers/folder.js:180-249 | whenever an edit is accepted, the account is an active member of the organization the folder was in, and of the one it is in afterwards |
| `DirectoryAccess.CreateFolderAcceptedIff` | server/controllers/folder.js:74-125 | exactly when a folder may be created, and the row it gets |
| `DirectoryAccess.DeletedRowsAre` | server/controllers/folder.js:127-164 | a delete is accepted exactly for the owner or an active member; then a folder below goes exactly when the account may use it and its parent goes, an entry exactly when its folder is gone, and everything else stays as it was |
| `DirectoryAccess.CreateEntryAcceptedIff` | server/controllers/entry.js:91-157 | exactly when an entry may be created, and the row and links it gets |
| `DirectoryAccess.DeleteEntryAcceptedIff` | server/controllers/entry.js:159-181 | exactly when an entry may be deleted, and that only its row goes |
| `DirectoryAccess.DuplicateAcceptedIff` | server/controllers/entry.js:413-450 | exactly when an entry may be copied; the copy has its place, owner and links and a new id |
| `DirectoryAccess.EditEntryAcceptedIff` | server/controllers/entry.js:183-254 | an entry edit is accepted exactly when the account may use the entry, the folder it goes to and every identity it gets |
| `DirectoryAccess.EditedEntryIs` | server/controllers/entry.js:183-254 | the row of the edited entry, and its links: given identities replace those the account may use and keep the others |
| `DirectoryAccess.RepositionAcceptedIff` | server/controllers/entry.js:531-646 | exactly when an entry may be put where the request asks, where it is then, and that other rows change in their position alone |
| `DirectoryTables.Tables.CreateFolder` | server/controllers/folder.js:74-125 | checks the parent in the order of the source and ends in the state the specification gives |
| `DirectoryTables.Tables.CleanupOrganizationIdentities` | server/controllers/folder.js:13-48 | the four queries together remove exactly the links of these entries to identities of the old organization, and their live sessions |
| `DirectoryTables.Tables.UpdateFolderContext` | server/controllers/folder.js:50-72 | the recursion over subfolders re-owns exactly the subtree |
| `DirectoryTables.Tables.IsInside` | server/controllers/folder.js:239-250 | the ancestor walk answers whether the target lies in the subtree of the moved folder, and ends |
| `DirectoryTables.Tables.EditFolder` | server/controllers/folder.js:166-278 | all checks, the walk and the recursion together equal the specification of an edit |
| `DirectoryTables.Tables.DeleteFolder` | server/controllers/folder.js:127-164 | the recursion deletes exactly the part of the subtree reachable through deletable folders, with its entries |
| `DirectoryTables.Tables.CreateEntry` | server/controllers/entry.js:91-157 | refuses or creates the entry with its folder's organization and links its identities |
| `DirectoryTables.Tables.EditEntry` | server/controllers/entry.js:183-254 | refuses or updates the row and replaces its links when identities are given |
| `DirectoryTables.Tables.DuplicateEntry` | server/controllers/entry.js:413-450 | copies the row and all its links |
| `DirectoryTables.Tables.DeleteEntry` | server/controllers/entry.js:159-181 | deletes the row if the account may |
| `DirectoryTables.Tables.RepositionEntry` | server/controllers/entry.js:531-646 | splices the ordered scope, rewrites every position and moves the entry to the target scope |
| `DirectoryTables.Tables.LeaveOrganization` | server/controllers/entry.js:603-629 | clearing the links and sessions of one entry when its organization changes |
| `Listing.EveryNodeOnce` | server/controllers/folder.js:280-360 | a traversal of nested arrays that place each node under its parent meets every node of an acyclic tree exactly once |
| `Listing.TreeAcyclic` | server/controllers/folder.js:280-360 | in a well-formed state the tree of organizations, folders and entries shown to an account is acyclic |
| `Listing.TreeClosed` | server/controllers/folder.js:314-350 | with memberships of existing organizations every shown node hangs under a shown node, so none is dropped |
| `ListingLaws.ShownIff` | server/controllers/folder.js:280-360 | the tree shows exactly the folders and entries that the account owns or whose organization it is an active member of, and those organizations |
| `ListingLaws.FolderHangs` | server/controllers/folder.js:301-322 | each folder hangs under its parent if that is shown, else under its organization, else at the top |
| `ListingLaws.EntryHangs` | server/controllers/entry.js:276-411 | each entry hangs in its folder, which is shown as well, else under its organization, else at the top |
| `ListingTables.QueryFolders` | server/controllers/folder.js:285-299 | the personal and the organization query together return each accessible folder once |
| `ListingTables.LinkFolders` | server/controllers/folder.js:301-322 | pushing every folder into its parent's array or into the roots places each folder exactly once |
| `ListingTables.GroupFolders` | server/controllers/folder.js:324-358 | every organization becomes a node holding exactly its top folders |
| `ListingTables.ListFolders` | server/controllers/folder.js:280-360 | the assembled forest holds each accessible folder and organization at its place |
| `ListingTables.SelectedIffAllowed` | server/controllers/entry.js:20-35 | the query of the entry list and the access check of a single entry accept the same entries |
| `ListingTables.Flatten` | server/controllers/entry.js:287-297 | the recursive flattening visits the forest in order |
| `ListingTables.QueryEntries` | server/controllers/entry.js:276-330 | the entries fetched are exactly those that the access check accepts |
| `ListingTables.ListEntries` | server/controllers/entry.js:276-411 | the returned list contains each accessible folder and organization and each entry that the access check accepts exactly once, and nothing else |
| `SessionLaws.RunKeeps` | server/lib/SessionManager.js:20-361 | every interleaving of steps of any number of sessions, sockets, timers and suspended removals keeps the invariant |
| `SessionLaws.LookupExact` | server/lib/SessionManager.js:354-361 | in every reachable state a share id resolves to a session if and only if that session is live, holds the id and has not expired |
| `SessionLaws.LookupEndsExpired` | server/lib/SessionManager.js:354-361 | looking up an expired id ends the sharing: the id leaves the index and every live session |
| `SessionLaws.AtMostOnce` | server/lib/SessionManager.js:158-169 | in every reachable state no terminal recording was finalised twice and no session ever had two master clients |
| `DesktopRecordings.StepTraces` | server/lib/SessionManager.js:249-307 | every step keeps the bookkeeping of desktop recordings: one that was handed to finalisation, and whose connection is still in the record, is being finalised by some removal or failed there; and a step hands over exactly what its branch says |
| `DesktopRecordings.DesktopOnceIff` | server/lib/SessionManager.js:269-271 | in every run the desktop recording of a session is handed to finalisation at most once if and only if no removal reaches it while an earlier one is still finalising it or has failed to |
| `DesktopRecordings.OverlappingRemovals` | server/lib/SessionManager.js:249-307 | two removals of a live session with a recorded master, the second called while the first is suspended at its first wait, finalise its desktop recording twice, whether or not a terminal recording comes first, since the connection is cleared only after the wait; other interleavings are covered by `DesktopRecordings.DesktopOnceIff` |
| `SessionLaws.JoinersUseMaster` | server/lib/ClientConnection.js:104-136 | the session of every joined socket has exactly one master client, and the socket used the connection id which that client reported |
| `SessionLaws.WaitingEnds` | server/lib/ClientConnection.js:138-164 | a waiting socket has joined, stopped, timed out or closed once 50 of its polls have run, whatever happens in between |
| `SessionLaws.DoneStays` | server/lib/ClientConnection.js:138-164 | a socket that joined, stopped or timed out never starts over |
| `SessionLaws.DeadForever` | server/lib/SessionManager.js:249-307 | a removed session never comes back to life in any later run |
| `SessionLaws.RemoveCompletes` | server/lib/SessionManager.js:249-307 | a removal that runs to its end leaves the session dead, also when it overlaps other removals of the same session |
| `SessionEffects.ElectionDecides` | server/lib/ClientConnection.js:50-74 | an opening socket becomes the master if and only if its session lives and has none, joins if and only if an id is reported, and else waits; only a new master adds a client, exactly one |
| `SessionEffects.BecomesMaster` | server/lib/ClientConnection.js:76-102 | a live session without a master always gets one: the socket is its master socket, the client is in the record without an id, and the socket is counted and active |
| `SessionEffects.ElectionCounts` | server/lib/ClientConnection.js:104-136 | a joining socket is counted among its session's sockets and no other record changes |
| `SessionEffects.PollDecides` | server/lib/ClientConnection.js:138-164 | one poll stops, joins with the reported id, times out at the fiftieth or waits on, each exactly when it should |
| `SessionEffects.PollCounts` | server/lib/ClientConnection.js:138-164 | a poll that joins counts the socket, any other changes no record |
| `SessionEffects.WaitersJoin` | server/lib/ClientConnection.js:138-164 | once guacd has reported the id of a session's client, in every later state of the run the next poll of a waiting socket joins with that id, as long as the session lives |
| `SessionEffects.RecordsBelong` | server/lib/SessionManager.js:20-46 | in every later state a session has the account, entry and audit flag it was made with |
| `SessionEffects.SessionMade` | server/lib/SessionManager.js:20-46 | a new session is live, awake and unshared, with no socket, recording or master |
| `SessionEffects.ShareGrants` | server/lib/SessionManager.js:314-328 | sharing grants the permission and the expiry asked for, under the former id if there was one |
| `SessionEffects.PermitGrants` | server/lib/SessionManager.js:347-352 | changed permissions replace the old ones and nothing else |
| `SessionEffects.SharingLasts` | server/lib/SessionManager.js:314-361 | over every run that neither shares the session again, changes its permissions nor stops the share, the id resolves to it, with the granted permission, if and only if the expiry has not come |
| `SessionEffects.SharingEnds` | server/lib/SessionManager.js:314-345 | stopping a share, and its timer when it is due, take the id from the session and the index |
| `SessionEffects.RemovalStarts` | server/lib/SessionManager.js:249-307 | a removal begins with the recording the session holds, or ends the session at once |
| `SessionEffects.RemovalResumes` | server/lib/SessionManager.js:249-307 | a suspended removal goes on to the desktop recording exactly when it has not been there and there is one, and else ends session and share |
| `SessionEffects.RemovalEnds` | server/lib/SessionManager.js:249-307 | two resumptions end every removal, and its session with it |
| `SessionEffects.ClosingDecides` | server/lib/ClientConnection.js:213-249 | a closing socket starts the removal of its session if and only if it was the last socket and the session is awake |
| `SessionEffects.RecordingOpens` | server/lib/SessionManager.js:122-138 | exactly an audited session with recording enabled holds the recording that was opened for it |
| `SessionEffects.RecordTold` | server/lib/SessionManager.js:200-365 | sleep, guests and terminal connections reach the record of their session alone |
| `SessionEffects.OpeningDecides` | server/lib/ClientConnection.js:50-62 | a browser socket is let in if and only if its session is live |
| `SessionManager.Manager.Create` | server/lib/SessionManager.js:20-46 | a new session is live, unshared and without a master |
| `SessionManager.Manager.StartSharing` | server/lib/SessionManager.js:314-328 | reuses or makes a share id, keeps index and session in step and rearms the expiry timer |
| `SessionManager.Manager.StopSharing` | server/lib/SessionManager.js:330-345 | takes the id from the session and the index and clears the timer |
| `SessionManager.Manager.GetByShareId` | server/lib/SessionManager.js:354-361 | returns the live session and ends an expired share |
| `SessionManager.Manager.UpdateSharePermissions` | server/lib/SessionManager.js:347-352 | changes the permission of a shared session and answers whether there is one |
| `SessionManager.Manager.BeginRemove` | server/lib/SessionManager.js:249-307 | runs a removal to its first suspension |
| `SessionManager.Manager.ResumeRemove` | server/lib/SessionManager.js:249-307 | continues a suspended removal on the record it holds, even if the key is gone |
| `SessionManager.Manager.SetMasterConnectionPending` | server/lib/SessionManager.js:96-113 | wins the election only for a live session with neither master nor pending election |
| `SessionManager.Manager.SetMasterConnection` | server/lib/SessionManager.js:67-77 | accepts only the first master |
| `SessionManager.Manager.Initialize` | server/lib/ClientConnection.js:50-74 | an opening socket joins, waits or becomes the master |
| `SessionManager.Manager.CreateMasterConnection` | server/lib/ClientConnection.js:76-102 | creates the one guacd client of the session |
| `SessionManager.Manager.JoinMasterConnection` | server/lib/ClientConnection.js:104-136 | joins with the id stored in the session |
| `SessionManager.Manager.CheckMaster` | server/lib/ClientConnection.js:138-164 | one poll: join, stop, time out or wait again |
| `SessionManager.Manager.ReceiveReady` | server/lib/SessionManager.js:83-88 | the reported id reaches the session that holds the client |
| `SessionManager.Manager.Close` | server/lib/ClientConnection.js:213-249 | closing a socket removes it, and the last one starts the removal of the session |
| `SftpDelete.StepKeeps` | server/utils/sftpHelpers.js:42-65 | every reply, in any order, keeps the counting invariant: each open folder waits for exactly its unfinished entries |
| `SftpDelete.RequestsFit` | server/utils/sftpHelpers.js:42-65 | in every run each outstanding request can be answered with success if its path still exists, and only with not found otherwise: listings and rmdir go to folders, unlink to files |
| `SftpDelete.SucceedsIff` | server/utils/sftpHelpers.js:42-65 | with no request outstanding, the callback reports success if and only if no reply of the run was a failure |
| `SftpDelete.CalledExactlyOnce` | server/utils/sftpHelpers.js:42-65 | when no request is outstanding, the callback has been called exactly once, and never twice before |
| `SftpDelete.RepliesRunOut` | server/utils/sftpHelpers.js:42-65 | whatever the order of replies and the errors among them, a run has at most two replies for each path of the folder |
| `SftpDelete.CallbackComes` | server/utils/sftpHelpers.js:42-65 | once that many replies have come no request is outstanding and the callback has been called exactly once; before that, as long as it has not, another reply can come |
| `SftpDelete.SuccessMeansGone` | server/utils/sftpHelpers.js:42-65 | success is reported only when the folder and everything below it is gone |
| `SftpDelete.FolderRemovedLast` | server/utils/sftpHelpers.js:44-60 | a folder is removed only after each of its entries reported success |
| `SftpDelete.OutsideUntouched` | server/utils/sftpHelpers.js:42-65 | no step changes anything outside the folder |
| `SftpDelete.Deleter.ReceiveListing` | server/utils/sftpHelpers.js:43-63 | the reply to a directory listing, with the empty, missing and failing cases |
| `SftpDelete.Deleter.ReceiveDeletion` | server/utils/sftpHelpers.js:44-62 | the reply to a deletion, passed up through every folder it completes |
| `ScriptText.UnescapeEscape` | server/utils/scriptUtils.js:1-2 | unescaping an escaped text equals unescaping the text itself, for every string |
| `ScriptText.ParseOptions` | server/utils/scriptUtils.js:4-17 | the loop over the characters computes the option list of the specification |
| `ScriptText.OptionsAreTrimmed` | server/utils/scriptUtils.js:4-17 | every option read is free of white space at its ends, whatever the text |
| `ScriptText.CommandPrints` | server/utils/scriptUtils.js:33-45 | the shell runs the transformed directive as `echo` with the printed line as its only argument and reads the answer into the named variable |
| `ScriptText.DialogReadsBackIff` | server/utils/scriptUtils.js:72-107 | the printed line opens the directive's dialog, with the same title and option list, if and only if it does not look like an echoed command and no option has white space at its ends |
| `ScriptText.BlankAtTheEnd` | server/utils/scriptUtils.js:10-15 | a concrete option with a trailing blank that is not read back |
| `ScriptDirectives.DirectiveIff` | server/utils/scriptUtils.js:72-107 | a line is a directive if and only if it holds one of the thirteen markers and shows neither an echo of one nor a prompt before one |
| `ScriptDirectives.EchoIsIgnored` | server/utils/scriptUtils.js:72-77 | a shown command that prints a directive is none, whatever stands before it |
| `ScriptDirectives.PromptIsIgnored` | server/utils/scriptUtils.js:72-77 | nor is a line that begins with a prompt, whatever stands between it and the marker on the same line |
| `LdapFilter.EscapeRoundTrip` | server/utils/ldapFilter.js:2-3 | an RFC 4515 reader gets back exactly the escaped value, with no wildcard in it |
| `LdapFilter.BuildNoParens` | server/utils/ldapFilter.js:5-10 | replaced text never opens or closes a filter |
| `LdapFilter.BuildReadsAsTemplate` | server/utils/ldapFilter.js:5-10 | for every template that is a filter and all replacements, section 3 of RFC 4515 reads the built filter as the template's tree with raw values at the placeholders |
| `Shell.QuotedIsOneWord` | server/utils/shell.js:2 | a POSIX word lexer reads the quoted value as exactly one word equal to the value, wherever the command continues |
| `Shell.ShellQuoteRoundTrip` | server/utils/shell.js:2 | a quoted value on its own is one word, for every string |
| `Shell.CopyCommandLexes` | server/routes/sftpWS.js:276-283 | the joined copy command lexes to the intended `cp -r` argument lists, whatever the file names contain |
| `Shell.BasenameIs` | server/routes/sftpWS.js:278-279 | the name of a copied path is what follows its last slash |
| `Shell.GetScriptCommands` | server/utils/scriptUtils.js:54-68 | the commands are the set-up, one `printf` per chunk of 2000 characters and the run command |
| `Shell.ScriptArrives` | server/utils/scriptUtils.js:58-63 | the chunks that the shell hands to `printf` concatenate to the whole base64 text |
| `AuditCsv.FileReadsBack` | server/controllers/audit.js:188-192 | an RFC 4180 reader gets back exactly the guarded texts, row by row and cell by cell, for any contents |
| `AuditCsv.NoFormulaSurvives` | server/controllers/audit.js:187-192 | no cell a reader sees starts with a formula character, and it is the original or the original behind a quote |
| `AuditCsv.CollectRows` | server/controllers/audit.js:194-205 | for a fixed log the paging loop yields exactly its first min(n, 100000) rows, in order |
| `AuditCsv.ExportAuditLogs` | server/controllers/audit.js:194-206 | the export is the header and those rows, and reports their number |
| `AuditCsv.ExportReadsBack` | server/controllers/audit.js:194-206 | a reader of the exported file finds the header and one record per exported row |
| `AuditCsv.RecordIs` | server/controllers/audit.js:183-206 | the reader of the export gets the ten headings and, for every row of the log, its ten values under them, the actor with its provider or else as account number |
| `Utf8.DecodeAppend` | server/lib/GuacdClient.js:66 | one cut of a received buffer: on a character boundary the texts of the two parts join to the text of the whole, anywhere else they have more characters than the whole |
| `Utf8.CutsAreHarmlessIff` | server/lib/ScriptLayer.js:75 | chunks decoded one by one join to the text of the uncut bytes if and only if no cut splits a character |
| `Utf8.SplitAccent` | server/lib/ScriptLayer.js:75 | the two bytes of an accented letter in two chunks become two replacement characters |
| `Utf8.CutsOfText` | server/lib/GuacdClient.js:66 | every way of cutting the text comes from a way of cutting the bytes between characters, so results about text cuts are results about bytes |
| `Utf8.EncodeReadsBack` | server/lib/GuacdClient.js:66 | every text is read back from its UTF-8 bytes |
| `ScriptStream.CutIsExact` | server/lib/ScriptLayer.js:81-82 | splitting a text into lines and a rest loses nothing |
| `ScriptStream.CutAppend` | server/lib/ScriptLayer.js:80-82 | splitting the kept rest together with the next chunk continues the split of the whole |
| `ScriptCuts.LinesIgnoreChunks` | server/lib/ScriptLayer.js:77-84 | while no chunk holds a password prompt and the output no end marker, the lines handled are the complete lines of the whole output and the buffer is the unfinished one |
| `ScriptCuts.EndInChunk` | server/lib/ScriptLayer.js:86-118 | without prompts, the state at the end of the script is exact: the lines up to the first end marker, then the unfinished line of the chunk that brings it, then the other lines of that chunk, and nothing of later chunks |
| `ScriptCuts.PromptIff` | server/utils/scriptUtils.js:19-21 | a chunk counts as a password prompt if and only if it contains one of the four texts |
| `ScriptCuts.EndLineEnds` | server/lib/ScriptLayer.js:86-118 | the line that the run command prints last ends the script, whatever number it reports |
| `ScriptCuts.EndsByMarker` | server/lib/ScriptLayer.js:86-118 | a line without the end marker does not end it |
| `ScriptCuts.PromptFreeCutsAgreeIff` | server/lib/ScriptLayer.js:77-84 | all cuts without a prompt in any chunk end in the same state, which records every line given to `processLine`, directives or not, if and only if the output has no end marker, or its first one is the last complete line and only blanks follow |
| `ScriptCuts.CutsAgreeIff` | server/lib/ScriptLayer.js:77-84 | all cuts whatsoever end in the same state, lines that are no directive included, if and only if, besides, the output holds no password prompt |
| `ScriptCuts.PromptSwallowsLine` | server/lib/ScriptLayer.js:78-79 | a finished line in the chunk of a password prompt is lost; cut off before the prompt it is handled |
| `ScriptCuts.AfterEndChunksShow` | server/lib/ScriptLayer.js:83 | a line in the end marker's own chunk is handled, in a later chunk it is not |
| `ScriptCuts.ByteCutsAgreeIff` | server/lib/ScriptLayer.js:75-84 | the same condition decides, for the same states, over all cuts of the received bytes that split no character |
| `ScriptCuts.SplitCharactersShowIff` | server/lib/ScriptLayer.js:75 | cuts of the bytes of an output without prompts and end marker leave the state of the uncut bytes if and only if none splits a character |
| `ScriptStream.ScriptLayer.OnData` | server/lib/ScriptLayer.js:75-84 | one data event decodes its buffer and equals one step of the specification |
| `ScriptStream.ScriptLayer.HandleEnd` | server/lib/ScriptLayer.js:147-155 | the unfinished line is handled once, then the layer is deaf |
| `LogBuffer.LastOfLast` | server/lib/SessionManager.js:151-154 | the window of a window and what follows is the window of everything |
| `LogBuffer.Log.AppendLog` | server/lib/SessionManager.js:148-156 | the replay buffer always holds the last 204800 characters ever appended |
| `Guacd.OpCodeReadsBack` | server/lib/GuacdClient.js:192-198 | a printed instruction is read back as its parts by length prefix, whatever commas and semicolons they contain |
| `GuacdStream.ReplyReadsBack` | server/lib/GuacdClient.js:95-132 | for every input with a handshake, errors or not, guacd reads the reply as the five instructions, with one value per requested attribute in order |
| `GuacdHandshake.ReplyIs` | server/lib/GuacdClient.js:95-132 | for every list of names in the handshake and every cut of the stream, guacd reads the size, the audio types, video, image, and one value for each name: its setting if the client does not join and the setting is there, else empty |
| `GuacdMessages.ReadyIsReported` | server/lib/GuacdClient.js:154-163 | the id of a ready instruction that comes first is reported by a master, under every cut, if no error follows, and by nobody else |
| `GuacdMessages.ErrorIsSeen` | server/lib/GuacdClient.js:143-152 | an error instruction with a message is recognised wherever it stands |
| `GuacdMessages.ErrorsClose` | server/lib/GuacdClient.js:134-152 | an error instruction with a message closes the client under every cut, whatever comes before or after it |
| `Guacd.SentAppend` | server/lib/GuacdClient.js:135-139 | cutting at the last semicolon, the kept rest and the next chunk cut as if they had come together |
| `GuacdStream.FirstReadyAppend` | server/lib/GuacdClient.js:156-163 | the first ready instruction of a stream lies within one block |
| `GuacdStream.StreamIgnoresChunks` | server/lib/GuacdClient.js:134-176 | a client that did not close has the state that the text alone determines, for every cut of the text |
| `GuacdStream.NeverClosesIff` | server/lib/GuacdClient.js:146-154 | a client stays open under every cut of a text if and only if the finished instructions after the handshake do not match the error pattern |
| `GuacdStream.CutsAgreeIff` | server/lib/GuacdClient.js:134-176 | all cuts of a text show the same, in what is written, forwarded and reported and in whether the client closes, if and only if its finished instructions do not match the error pattern or the first one already does |
| `GuacdStream.CutsDoNotMatter` | server/lib/GuacdClient.js:65-76 | without an error in the finished instructions, any two ways of cutting the text leave the client in the same state |
| `GuacdStream.NothingIsLost` | server/lib/GuacdClient.js:134-176 | without an error in the finished instructions, what was forwarded and what is kept is exactly the text after the handshake, no finished instruction waits, and the first ready id is reported once |
| `GuacdStream.ErrorSwallowsItsChunk` | server/lib/GuacdClient.js:146-154 | with an error the cut does show: instructions in the error's own chunk are dropped with it, in an earlier chunk they are forwarded |
| `GuacdStream.ByteCutsAgreeIff` | server/lib/GuacdClient.js:65-76 | the same condition decides over all cuts of the received bytes that split no character |
| `GuacdStream.SplitCharactersShowIff` | server/lib/GuacdClient.js:66 | a client that has completed its handshake and stays open holds and has forwarded the text of the uncut bytes if and only if no cut splits a character |
| `Utf8.CutsKeepAscii` | server/lib/GuacdClient.js:66 | under every cut of the bytes, inside characters or not, each ASCII character arrives once and in order |
| `GuacdHandshake.EveryCutKeepsTheFrame` | server/lib/GuacdClient.js:95-132 | under every cut of the bytes, errors or not, the reply has five instructions and as many values as for the uncut bytes, and a joining client writes the same reply |
| `GuacdHandshake.SplitFromTheStartIff` | server/lib/GuacdClient.js:65-76 | from the first byte on, a client that stays open ends in the state of the uncut bytes if and only if no cut splits a character after the handshake and those inside the handshake leave the reply as it is |
| `Guacd.GuacdClient.OnData` | server/lib/GuacdClient.js:65-76 | one data event decodes its buffer and equals one step of the specification |
| `Guacd.GuacdClient.FinishHandshake` | server/lib/GuacdClient.js:95-132 | consumes the handshake, writes the reply and processes what follows |
| `Guacd.GuacdClient.ProcessData` | server/lib/GuacdClient.js:134-176 | forwards up to the last semicolon, closes on an error, reports the first ready id |
| `Netbox.SyncMatchesInventory` | server/utils/netboxSyncService.js:122-196 | after a sync the managed external ids are exactly the matched inventory, or that and everything managed before when removals are held |
| `Netbox.SyncKeepsOthers` | server/utils/netboxSyncService.js:134-146 | a row the integration does not manage is never changed or removed |
| `Netbox.SyncKeepsManaged` | server/utils/netboxSyncService.js:185-190 | a managed host is removed exactly when the inventory lost it and removals are not held; its place and detected system stay, a held host keeps every column |
| `Netbox.SyncAddsOnlyManaged` | server/utils/netboxSyncService.js:158-183 | every row that appears belongs to the integration and to the inventory |
| `Netbox.SyncLeaves` | server/utils/netboxSyncService.js:122-222 | the number of managed hosts changes by created minus deleted, and the removals still due are exactly the held ones |
| `Netbox.HeldExactly` | server/utils/netboxSyncService.js:112-201 | removals are held exactly when not allowed and all managed hosts, or more than five and more than a tenth, would go; status, notice and counters say so |
| `Netbox.HostColumns` | server/utils/netboxSyncService.js:160-187 | when every host is listed and stored once, each has a row with its name, details and id, in the folder and organization of the integration, owned by the account that syncs only outside an organization; a host that was there keeps its position |
| `Netbox.UnapprovedRemovalsAreBounded` | server/utils/netboxSyncService.js:117-120 | without approval a sync removes at most five hosts or a tenth of them, and never all |
| `Netbox.EmptyInventoryIsHarmless` | server/utils/netboxSyncService.js:117-120 | an empty inventory changes no row without approval |
| `Netbox.PreviewForetells` | server/utils/netboxSyncService.js:147-154 | the preview lists as many creations, updates and removals as the run counts, and asks for review exactly when an unapproved run holds |
| `Netbox.PreviewNamesNewRows` | server/utils/netboxSyncService.js:147-154 | the created rows carry the previewed names in the previewed order |
| `Netbox.NextSync` | server/utils/netboxSyncService.js:122-222 | the next unapproved sync of the same inventory creates nothing, and deletes nothing if and only if nothing was held or the held removals still need review after the first sync's creations are counted |
| `Netbox.HeldRemovalSlipsThrough` | server/utils/netboxSyncService.js:120 | one host replaced by another: the first sync holds the removal, the second applies it unapproved |
| `Netbox.HeldAgainSilently` | server/utils/netboxSyncService.js:197-201 | a removal that stays held is not announced again |
| `Netbox.NextSyncIsIdleIff` | server/utils/netboxSyncService.js:122-222 | for an inventory that names no host twice, the next unapproved sync of it leaves every row as it is if and only if it removes none and each row of a duplicated host that only the second lookup names was up to date before |
| `Netbox.NextSyncIsIdle` | server/utils/netboxSyncService.js:122-222 | with one row at most for each listed host, and no host named twice, a second sync that removes nothing leaves every row as it is |
| `Netbox.OneRowIff` | server/utils/netboxSyncService.js:142-187 | a sync leaves each host of the inventory with exactly one row of the integration if and only if no listed host had two rows before and no host without a row is listed twice |
| `Netbox.OneRowPerHost` | server/utils/netboxSyncService.js:160-183 | under that condition the row of each host is filled from the last item of the inventory that names it |
| `Netbox.DuplicatesStay` | server/utils/netboxSyncService.js:142 | two rows of one listed host, as duplicating an entry makes them, both survive every sync, and at most the one the lookup map names is updated |
| `Netbox.CopyGoesStale` | server/utils/netboxSyncService.js:142 | a concrete table with a host and its copy: after a sync with a new name one row has the new name and the other the old one |
| `Netbox.RunKeepsHosts` | server/utils/netboxSyncService.js:122-222 | over any run of syncs of any integrations, none of which lists a host without a row twice, no host of a table without duplicates gets a second row and rows managed by none of them stay as they are |
| `Netbox.Service.IndexRows` | server/utils/netboxSyncService.js:142 | the lookup map holds one row for each external id |
| `Netbox.Service.FindRemovals` | server/utils/netboxSyncService.js:143-144 | the filter finds each managed row outside the inventory once |
| `Netbox.Service.SyncIntegration` | server/utils/netboxSyncService.js:122-222 | the loops and counters of a sync equal the specification |
| `Netbox.Service.PreviewSync` | server/utils/netboxSyncService.js:147-154 | the dry run returns the lists of the specification |
| `Organizations.StepKeeps` | server/controllers/organization.js:43-338 | every operation keeps: memberships of existing organizations and accounts, at most one owner each, and pending members plain |
| `Organizations.ReachableOrganizationsHaveOneOwner` | server/controllers/organization.js:43-338 | in every reachable state each organization has exactly one owner, who is active and has an account |
| `Organizations.RunKeepsOwned` | server/controllers/organization.js:276-305 | an organization with an owner keeps having one for as long as it exists, also next to organizations that never had one |
| `Organizations.GoneForGood` | server/controllers/organization.js:32-41 | a deleted organization and its memberships never come back |
| `Organizations.EffectiveRoleDiffersIff` | server/controllers/organization.js:19-27 | an active member's effective role differs from the stored one if and only if the organization has no owner and the member is an administrator |
| `Organizations.ReachableRolesAreStored` | server/controllers/organization.js:19-27 | in every reachable state the stored role of an active member is the role that counts |
| `Organizations.RoleRisesByOwner` | server/controllers/organization.js:266-305 | a role rises only by appointment or transfer by the owner, or by inheriting from the deleted owner as first-ranked, longest member |
| `Organizations.ActiveByOwnAct` | server/controllers/organization.js:174-189 | nobody becomes an active member except by creating, accepting or signing in themselves |
| `Organizations.MembershipEnds` | server/controllers/organization.js:191-264 | a membership ends only by leaving, declining, removal by someone of higher rank, or with the organization or account |
| `Organizations.OwnerReplacedByOwner` | server/controllers/organization.js:276-305 | an owner is replaced only by transferring or by account deletion, and then the named successor is the owner |
| `Organizations.TransferHandsOver` | server/controllers/organization.js:276-288 | a transfer by the owner makes exactly the successor the owner and the former owner a manager, and changes nobody else |
| `OrganizationEffects.ReachableIsSound` | server/controllers/organization.js:43-338 | every reachable state is sound, which is all that the following laws ask of a state |
| `OrganizationEffects.CreatedIs` | server/controllers/organization.js:43-60 | the creator is the only member and the owner |
| `OrganizationEffects.InviteIff` | server/controllers/organization.js:145-172 | exactly when an invitation is made, and the one row it adds |
| `OrganizationEffects.RespondIff` | server/controllers/organization.js:174-189 | exactly when an answer is taken; accepting makes the row active and declining removes it |
| `OrganizationEffects.RemoveIff` | server/controllers/organization.js:191-216 | exactly who removes whom, and that one row goes |
| `OrganizationEffects.LeaveIff` | server/controllers/organization.js:247-264 | exactly who leaves, and that one row goes |
| `OrganizationEffects.SetRoleIff` | server/controllers/organization.js:266-274 | exactly who sets whose role, and that the row has the role asked for |
| `OrganizationEffects.TransferIff` | server/controllers/organization.js:276-288 | exactly when ownership is handed over, and that the successor is then the owner and the former owner a manager |
| `OrganizationEffects.DeleteIff` | server/controllers/organization.js:62-74 | exactly when an organization is deleted, and which rows stay |
| `OrganizationEffects.JoinedRow` | server/controllers/organization.js:307-338 | every row after a sign-in: active in the existing organizations of the list, as it was elsewhere |
| `OrganizationEffects.DeleteAccountIff` | server/controllers/account.js:50-79 | exactly when an account is deleted, and every row that stays: an organization it owned goes unless another active member inherits it |
| `Organizations.Registry.CreateOrganization` | server/controllers/organization.js:43-60 | a new organization starts with its creator as active owner |
| `Organizations.Registry.DeleteOrganization` | server/controllers/organization.js:62-74 | only an effective owner deletes, and all memberships go |
| `Organizations.Registry.InviteUser` | server/controllers/organization.js:145-172 | a new pending plain membership, or the refusal of the source |
| `Organizations.Registry.RespondToInvitation` | server/controllers/organization.js:174-189 | accepting activates, declining removes the pending membership |
| `Organizations.Registry.RemoveMember` | server/controllers/organization.js:191-216 | removal only of a lower rank |
| `Organizations.Registry.LeaveOrganization` | server/controllers/organization.js:247-264 | everybody but the owner may leave |
| `Organizations.Registry.SetMemberRole` | server/controllers/organization.js:266-274 | only the owner changes roles, never the owner's |
| `Organizations.Registry.TransferOwnership` | server/controllers/organization.js:276-288 | the two updates make the successor the only owner and the former owner a manager |
| `Organizations.Registry.FindSuccessor` | server/controllers/organization.js:294-295 | the first of the other active members by rank and then by date, if there is one |
| `Organizations.Registry.HandOverOrganizations` | server/controllers/organization.js:290-305 | every owned organization goes to its successor or is deleted |
| `Organizations.Registry.JoinOrganizations` | server/controllers/organization.js:307-338 | a sign-in activates or creates a membership in each existing organization of the list |
| `Organizations.Registry.DeleteAccount` | server/controllers/account.js:50-79 | the last administrator stays; otherwise ownership is handed over before the memberships go |
| `SignIn.RunKeeps` | server/utils/sessionAuth.js:14-24 | in every run, restarts and socket messages included, the stored activity trails the last use by less than 60 seconds |
| `SignIn.IdleMeansUnused` | server/utils/sessionAuth.js:14-24 | in every reachable state a session rejected as idle was unused, by requests and by socket messages, for more than the idle time less a minute, and one unused for longer than the idle time is rejected |
| `SignIn.SignInsAge` | server/utils/sessionAuth.js:14-50 | in every run after a sign-in its row, while it is there, has the account and time of that sign-in, so no request checked later than the maximum age after it is let in, however active the session was |
| `SignIn.UseIs` | server/utils/sessionAuth.js:18-24 | what a use writes, to that session alone: the time and a new address, never the time of the sign-in |
| `SignIn.AddressIsKept` | server/utils/sessionAuth.js:18-24 | a request that is let in leaves its address in the row |
| `SignIn.RevokedAre` | server/utils/sessionAuth.js:74-84 | revoking takes exactly the given sessions and leaves every other as it was |
| `SignIn.MessageRevives` | server/middlewares/wsAuth.js:52-55 | socket messages are not checked for expiry: one that comes before the sweep makes an idle session usable again, unless it comes within a minute of the last write |
| `SignIn.WhoLosesAccess` | server/utils/sessionAuth.js:52-103 | in every reachable state the sweep takes a session exactly when a request would be refused as expired; a refused one is too old or was unused for more than the idle time less a minute, one that is too old or was unused for longer than the idle time is refused, and one let in was used within the idle time |
| `SignIn.RevokeCutsIff` | server/utils/sessionAuth.js:74-84 | revoking cuts the live connections of exactly the accounts that lose their last sign-in |
| `SignIn.GoneForGood` | server/utils/sessionAuth.js:74-84 | a session that is gone lets nobody in again, also when messages still come over its sockets |
| `SignIn.SessionAuth.CreateSignInSession` | server/utils/sessionAuth.js:41-50 | a new session is active now and has the next id |
| `SignIn.SessionAuth.TouchSession` | server/utils/sessionAuth.js:18-24 | writes at most once a minute unless the address changed; without a row only the time of the write is remembered |
| `SignIn.SessionAuth.ResolveSession` | server/utils/sessionAuth.js:52-72 | the checks in the order of the source |
| `SignIn.SessionAuth.RevokeSessions` | server/utils/sessionAuth.js:74-84 | the rows, the remembered writes and the sockets of the sessions go together |
| `SignIn.SessionAuth.SweepExpiredSessions` | server/utils/sessionAuth.js:86-103 | the query with strict comparisons selects and revokes the expired sessions and returns their number |
| `Broadcaster.StepKeeps` | server/lib/StateBroadcaster.js:16-158 | every operation keeps both indexes and the timers consistent |
| `Broadcaster.ReachableIndexes` | server/lib/StateBroadcaster.js:16-40 | in every reachable state neither index stores an empty entry and every connection listed by a session is that session's and is listed by an account |
| `Broadcaster.LogoutLeavesNoTrace` | server/lib/StateBroadcaster.js:115-136 | logging an account out tells all its connections and leaves none of them in either index |
| `Broadcaster.SessionLogoutTellsAll` | server/lib/StateBroadcaster.js:138-153 | ending a sign-in session tells every connection opened with it |
| `Broadcaster.FalsySessionLeavesTrace` | server/lib/StateBroadcaster.js:128-132 | with session id 0 the connection would stay in the session index; `server/routes/state.js:14` passes a database id, so that input is not reached |
| `Broadcaster.UnsentChangeHasTimer` | server/lib/StateBroadcaster.js:95-102 | a change that no send has followed has exactly one timer, due 100 ms after the last change of its key |
| `BroadcasterEffects.RegisterAdds` | server/lib/StateBroadcaster.js:16-22 | a registered connection enters both indexes and no other one moves |
| `BroadcasterEffects.UnregisterTakesFirst` | server/lib/StateBroadcaster.js:24-40 | closing a socket takes exactly its first connection of the account out of both indexes |
| `BroadcasterEffects.SocketLeavesNoTrace` | server/lib/StateBroadcaster.js:16-40 | connecting and closing a new socket leaves both indexes as they were, for a session id other than 0 |
| `BroadcasterEffects.LogoutTellsExactly` | server/lib/StateBroadcaster.js:115-136 | logging an account out tells its connections and nobody else |
| `BroadcasterEffects.SessionLogoutTellsExactly` | server/lib/StateBroadcaster.js:138-153 | ending a sign-in session tells exactly the connections it lists |
| `BroadcasterEffects.FiringSends` | server/lib/StateBroadcaster.js:98-101 | a timer that fires sends its key, of which no timer is left, and no other key |
| `BroadcasterEffects.ChangeRestarts` | server/lib/StateBroadcaster.js:95-102 | a change leaves its key one timer, due in 100 ms, and every other key its own |
| `Broadcaster.StateBroadcaster.RegisterSocket` | server/lib/StateBroadcaster.js:16-22 | the connection enters both indexes |
| `Broadcaster.StateBroadcaster.UnregisterSocket` | server/lib/StateBroadcaster.js:24-40 | the first connection of the socket leaves both indexes, with the entries it empties |
| `Broadcaster.StateBroadcaster.ForceLogoutAccount` | server/lib/StateBroadcaster.js:115-136 | the loop over the account's connections |
| `Broadcaster.StateBroadcaster.ForceLogoutSignIn` | server/lib/StateBroadcaster.js:138-153 | the session leaves the session index |
| `Broadcaster.StateBroadcaster.ScheduleBroadcast` | server/lib/StateBroadcaster.js:95-102 | the former timer is cleared and a new one armed |
| `Broadcaster.StateBroadcaster.OnTimeout` | server/lib/StateBroadcaster.js:98-101 | the key is no longer pending and is sent |
| `Commands.TableRefinesLists` | server/controllers/command.js:11-48 | after any run in any mix of scopes each scope shows what the plain list operations alone would give |
| `Commands.TableRefinesItems` | server/controllers/command.js:11-48 | after any run each item has the owner and content it was last given; calls for other owners change nothing |
| `Commands.RepositionMoves` | server/controllers/command.js:34-48 | the moved item takes its target's place, all others keep their order, positions become 1..n, and no other list or column changes |
| `Commands.RepositionBack` | server/controllers/command.js:34-48 | moving an item from i to j and back to i restores the list |
| `Commands.CreateAppends` | server/controllers/command.js:11-17 | a new item is the last of its list |
| `Commands.RemoveTakesOut` | server/controllers/command.js:19-24 | removing an item closes the gap in its list only |
| `Commands.Controller.Reposition` | server/controllers/command.js:34-48 | the query, the two splices and the updates equal the specification |
| `Commands.Controller.Create` | server/controllers/command.js:11-17 | takes the largest sort number of the scope, or 0, plus one |
| `Commands.Controller.Remove` | server/controllers/command.js:19-24 | removes a row of the scope or reports that there is none |
| `Commands.Controller.Edit` | server/controllers/command.js:26-32 | changes the content of a row of the scope and nothing else |
| `Lists.MoveBack` | server/controllers/command.js:43 | splicing an item to a place and back restores the list |
| `Lists.MoveIs` | server/controllers/command.js:43 | the spliced item is at the requested place, the others keep their order, and nothing is lost or repeated |

## Left out

- Folders and entries: jump hosts, tags, configuration and renderer columns, the `isDefault` flag and duplicate keys of identity links, importing SSH configurations, audit logging and broadcasts; links of destroyed entries stay, as no cascade of the database is modelled; ids are positive, so 0 is never a row.
- Folders created, moved or rebuilt by `server/controllers/integration.js`, and the folder a NetBox sync places its hosts in, are outside the invariant of the folder tables.
- Races between separate database requests: each operation of the folder, entry, organization, sign-in, command and inventory models runs as a whole.
- DirectoryLaws.EditEntryUnlinksIff: states when the stale links are gone; that they always are is false of the code.
- DirectoryLaws.EditKeepsOwnersIff: states when owners agree; that they always do is false of the code.
- Listing: the order of nodes among their siblings, and the contents of a node beyond its identity.
- Sessions: records are values under ids rather than objects; activity timestamps, SFTP handles, the periodic clean-up and the window sizes written to a recording; a recording opened after its session was removed is never finalised, and a waiting socket that times out stays in the session's socket set, both as in the source.
- SFTP: entries that other clients create while the deletion runs, duplicate names in one listing, timeouts of the transport, symbolic links that point outside, directory search, archives and `ensureSftpParentDirs`.
- ScriptText.DialogReadsBackIff: directives are given by their parts, so the regular expressions that find them in a script are not modelled; titles and options hold no character with a meaning between double quotes, no line end and no escape character, so terminal sequences need no stripping; INPUT, MSGBOX and the one-text directives have no option list and are read as name and rest.
- Shell.CopyCommandLexes: the lexer covers quoting, words, comments and operators of sections 2.2 and 2.3 of the POSIX.1-2017 Shell Command Language, not expansions, since every argument is single-quoted.
- LdapFilter.EscapeRoundTrip: characters stand for themselves, so the UTF-8 octets of a non-ASCII value are not modelled.
- LdapFilter.BuildReadsAsTemplate: extensible matching rules and filters without parentheses are outside the reader.
- AuditCsv.ExportReadsBack: the cells are given as texts; the JSON text of a details object and the ISO form of a time are not modelled.
- Utf8: a byte order mark at the start of a buffer, which decoding keeps, is a character like any other; lengths and positions count characters, where the source counts UTF-16 units.
- LogBuffer: takes the decoded text of each buffer.
- ScriptStream: what the browser is sent for a handled line, the prompts and their answers, and the writing of the commands; terminal sequences inside a line are taken as already stripped.
- Guacd.OpCodeReadsBack: lengths are counted in the string's own characters, so text outside the Basic Multilingual Plane, which guacd counts differently, is not modelled.
- Guacd: failing writes during the handshake, keep-alive, sync timestamps, the recording parameters added to the settings, the default size, and numeric settings before they are printed; sizes and audio types are given as printed.
- Netbox: the filters and protocol rules, which only choose the inventory and the columns given to the sync; the `lastSeenAt` time in the written columns, so `Netbox.NextSyncIsIdleIff` speaks of the other columns; the percentage is compared in integers.
- Organizations: names, descriptions and audit settings, the other data an organization or account takes with it, and the crash between the two halves of an account deletion.
- SignIn: tokens, impersonation and the audit trail; a policy is any pair of limits.
- Broadcaster: what is sent, the state of a socket, and the lookup of the members a change concerns.
- Commands: the list of all accessible items over several scopes, which is ordered by sort number alone.
- Proxmox, OIDC, LDAP transport, WebDAV, SMB, backups, metrics and the React client.
