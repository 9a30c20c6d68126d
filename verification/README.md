# The vault app: a verified model

A badge that keeps passwords, one-time codes, passkeys, photos and QR bookmarks runs one
application, the vault. This project models the parts of it that carry state or formats, and proves
what they promise for every input and every run.

* **Menus and modes.** `IdleMenu` has the entry tables and the one menu that is refilled before each
  use; `MainLoop` the fields the main loop keeps in step (open menu, "menu just opened" flag, pending
  question, menu origin, mode) and what every handler does to them; `MenuProtocol` puts the loop and
  the menu widgets together as a system of messages, proves invariants of every run and drives the loop
  object through it; `MenuZones` says which screen, origin and menu go together while messages are on
  their way, and which keys keep them so; `MenuEntries` proves that every entry and button does what is
  written on it; `BackNavigation` proves where BACK leads in the runs of those
  keys, `BackHarm` that every other key can make BACK open the wrong menu.
* **The item cache.** `TextOrder` is the order of strings, `ItemCache` the sorted list, its binary
  search and its prefix window, `FilteredList` the lazily sorted view object with all its operations
  refined to a map, `PasswordList` the loop that merges the stored passwords into it.
* **The security key.** `ClientPins` has the PIN commands and the PIN policy command over the
  persistent store, `PinSafety` the theorems about what cannot happen in whole runs, `PinEffects` exactly
  when a command is granted, what it has then done and what a refused one says; `CredentialManagement` the two
  enumerations; `Apdu` the frame parser; `Padding` and `CredentialIds` the encrypted credential IDs.
* **Stored formats.** `TextFormat`, `TotpRecords` and `PasswordRecords` are the line-tagged records,
  `FixedDigits` the zero-padded numbers in keys, `BookmarkKeys` and `Bookmarks` the hex-keyed
  bookmarks and their counter, `PhotoKeys` the photo dictionary.
* **Photos and passwords.** `Photos`, `BmpExport`, `Base64`, `AsciiArt` and `PhotoTyping` are the
  photo exports with the host's readers, `PhotoGrid` the thumbnail page, `Generator` the strict
  password generator. `Bits` and `Division` say what the word operators do to each bit.

Objects that the program updates in place are classes here, and their methods are proved equal to
functions on the values; the theorems are about those functions, and drivers that put the objects through
any sequence of commands carry them over (`MenuProtocol.RunLoop`, `PinSafety.RunDevice`,
`CredentialManagement.RunCalls`, `FilteredList.Replay`, `Bookmarks.Replay`, `PhotoKeys.Replay`).
`Results` and `Bytes` are shared.

## What does not hold as documented

Some promises fail for some inputs; each has its exact condition below.

* Filtering can leave the first item out of the window: exactly when the list starts with two items
  named as the criteria, because the backward scan stops at index 1
  (`ItemCache.WindowShowsAllUnlessARunIsInFront`). After a filter with no match the range is absent
  and the whole list is shown. The criteria are compared as typed with lower-cased names, so criteria
  with an upper-case letter never match (`ItemCache.CaseBlindIff`, `ItemCache.UpperCaseFindsNothing`).
* BACK can open the wrong menu when a key is handled ahead of messages that are waiting. The keys after
  which it cannot are exactly those of `MenuZones.KeepsBack`, whatever is waiting and however much
  (`BackNavigation.BackMenuIsTheOwner`, `BackHarm.SteadyKeysAreExactlyTheSafeOnes`). A key that opens a
  menu with no close notice waiting may not run ahead of a request for the record menu on a screen of
  "login deets", nor elsewhere ahead of a start of the camera, or of an address or bookmark code that
  brings up its screen with nothing behind it that goes back to standby. The camera may not be started
  while standby still remembers "login deets" or "settings". Each kind of such message does get to wait
  (`BackHarm.PostIsReached`, `BackHarm.LeavingIsReached`).
* Even then the menu reopened by BACK stays up exactly when neither a close notice, which shuts it, nor a
  request, which covers it, was waiting at the key (`BackNavigation.BackReopensTheOwnerIff`), as one is
  after selecting a screen and going back at once (`BackHarm.CloseIsDue`).
* A record whose text fields hold a line break does not read back
  (`TotpRecords.TotpRoundTrip`, `PasswordRecords.PasswordRoundTrip`), and the two record readers
  differ when the version or algorithm line is missing (`TotpRecords.ReadersAgreeIff`,
  `PasswordRecords.ReadersAgreeIff`). The same holds for bookmarks (`Bookmarks.BodyRoundTrip`).
* The APDU parser reads every frame of ISO/IEC 7816-4, section 5.1, as meant except those of case 2E, an
  extended expected length on its own (`Apdu.ReadAsMeantIff`): they are an error unless the two length
  bytes are zero, and then the expected length is lost (`Apdu.Case2EIsMisread`).
* Photo keys are called monotonic and stable in order. The numbers rise, and no key is issued twice,
  exactly as long as no photo is stored after the one with the highest number was deleted
  (`PhotoKeys.NumbersRiseIff`). The list sorted by key is in the order of the numbers exactly when each
  pair in it has the same width or the smaller number is at most the larger one without the digits it has
  more (`PhotoKeys.ListRisesIff`, `PhotoKeys.KeysSortIff`): always below 10000, but not with 9999 and 10000.
* When the body of a bookmark cannot be written its number is used up, and what the write left is listed
  (`Bookmarks.BookmarkStore.Store`).
* The host's ASCII art reader drops blank lines, so it sees the photo exactly when every pair of rows
  has ink (`AsciiArt.HostSeesThePhotoIff`).

## Model

| member | source | states |
|---|---|---|
| IdleMenu.WithoutOwnLabels | src/idlemenu.rs:171-182 | deleting the remembered labels from the shared menu leaves nothing of it, whatever table it held |
| IdleMenu.Fill | src/idlemenu.rs:171-193 | refilling deletes exactly the remembered entries and appends the new table in order; when the remembered labels are those of the menu, only the new table is left; the labels returned are the new table's |
| MainLoop.JogMeansStandby | src/ux.rs:1816-2241 | the jog, fire and left keys get past a screen only into or in standby, so the arm that would open record actions over a screen is never taken |
| MainLoop.VaultLoop.constructor | src/main.rs:424-440 | the loop starts with no menu, the flag down, nothing pending, origin Root and an empty shared menu |
| MainLoop.VaultLoop.OpenScratch | src/main.rs:474-501 | opening a shared menu makes it the active one and leaves just its table in the widget |
| MainLoop.VaultLoop.Ask | src/main.rs:511-528 | a guarded action is only recorded as pending, the flag is armed and the confirm menu shown |
| MainLoop.VaultLoop.HandleEntry | src/main.rs:502-1411 | for every entry, the new fields are the specified ones and the guarded action run is the pending one on a yes and none otherwise |
| MainLoop.VaultLoop.HandlePost | src/main.rs:474-1158 | for every posted message, the new fields and the messages posted in turn are the specified ones |
| MenuProtocol.OpenedHolds | src/idlemenu.rs:171-193 | as long as the remembered labels name the menu's entries, refilling leaves just the new table |
| MenuProtocol.StepKeepsInv | src/main.rs:424-1411 | every enabled step, sending, receiving or a key press, keeps the flag, the shared menu and the confirmation history consistent |
| MenuProtocol.RunKeepsInv | src/main.rs:424-1411 | the same in every state of every run |
| MenuProtocol.FlagIsDownWhenNothingIsDue | src/main.rs:672-698 | in every run, when no widget message is outstanding the flag is down, so it never swallows the user's own LEFT |
| MenuProtocol.SwallowsExactlyTheStaleNotice | src/main.rs:672-698 | in every run, a close notice is swallowed if and only if it follows a selection that opened another menu |
| MenuProtocol.YesRunsTheLatestQuestionOnce | src/main.rs:646-671 | in every run, a yes runs the action of the entry asked about last - deleting only for an entry that deletes, and so on for all six - exactly once, and leaves nothing pending |
| MenuProtocol.ActionsMatchYeses | src/main.rs:511-671 | in every run, guarded actions are as many as yes answers, each is the action of the entry it answers, no question is answered twice |
| MenuProtocol.OpenConfirmGuardsTheLatestQuestion | src/main.rs:511-645 | in every run, an open confirm menu means a pending action, that of the entry asked about last, still unanswered; the shared menu holds just the confirm table |
| MenuProtocol.EntriesAskAboutTheirAction | src/main.rs:511-645 | six entries ask before acting, each about its own action, and no other entry asks |
| MenuProtocol.RunLoop | src/main.rs:424-1411 | the loop object driven through any run ends with the fields of the last state; the guarded actions it ran are one per yes, each is that of the entry it answers, in order; with no widget message outstanding its flag is down |
| MenuZones.OwnerListsTheScreen | src/idlemenu.rs:42-99 | a screen's owner is the one menu whose table has an entry opening it, and handling that entry does show the screen |
| MenuEntries.EntriesKeepTheirPromise | src/main.rs:502-1411 | in every run, an entry of any of the seven tables does what its words say once it and its close notice are handled: shows that screen, opens that menu, asks about that action, answers, or leaves, with nothing else run, asked or shown |
| MenuEntries.MiddleOpensTheActions | src/ux.rs:1890-2130 | the middle button of a list opens the actions of what the list shows, over it, when there is something in it, and does nothing otherwise; the jog key does the same where it has no item to show |
| MenuEntries.ItemsAreShown | src/ux.rs:1939-2165 | RIGHT and the jog key show the photo or code under the cursor, and UP and DOWN the next code, when there is one that can be shown |
| MenuEntries.CameraDevelops | src/actions.rs:1320-1570 | wherever it is started, a camera session ends on the fresh photo, on the address that was read, in standby when it found nothing on an attached badge, or where it began |
| MenuEntries.MiddleStartsTheCamera | src/ux.rs:1965-2241 | the middle button starts the camera in standby, and again from a fresh photo or an address |
| MenuEntries.RightKeepsAndSaves | src/ux.rs:1965-2241 | RIGHT keeps a fresh photo and goes on shooting when there is room, and takes an address to the collection |
| MenuEntries.OtherKeysDoNothing | src/ux.rs:1816-2241 | no other key does anything to the loop on any screen |
| MenuZones.ScreenKeyOpens | src/main.rs:768-821 | with no menu open, which keys open which menu and that such a key posts nothing |
| MenuZones.StepKeepsZone | src/main.rs:424-1411 | every enabled step whose key is one of `KeepsBack` keeps screen, origin, open menu and waiting messages in one of the eight agreeing zones |
| MenuZones.SteadyRunKeepsZone | src/main.rs:424-1411 | so do all states of every run of such steps, whatever else is waiting |
| BackNavigation.BackMenuIsTheOwner | src/main.rs:1288-1341 | in every state of every such run the menu that BACK opens from a screen is the one that lists it, and in standby the top menu once no close notice is waiting |
| BackNavigation.BackReopensTheOwnerIff | src/main.rs:768-821 | in every such run the key that leaves a screen opens its owner, and once all that was waiting is handled that menu is still open if and only if neither a close notice nor a menu request was waiting at the key; without a close notice the mode is standby |
| BackNavigation.LeftOutOfAShownItem | src/ux.rs:1939-2170 | LEFT out of a photo or code shown from its list goes back to the list, out of a fresh photo to standby, and BACK from there is the top menu |
| BackHarm.SteadyKeysAreExactlyTheSafeOnes | src/main.rs:474-821 | at any state of such a run, with any number of messages waiting, the key is one of `KeepsBack` if and only if no continuation by such keys ends with nothing waiting and BACK opening a menu other than the owner, or the jog key in standby another than the top menu |
| BackHarm.PostIsReached | src/main.rs:474-487 | each kind of post that can forbid a key to open a menu does wait in some run, where it forbids LEFT |
| BackHarm.CloseIsDue | src/main.rs:672-698 | a run in which a screen is up while the close notice of its menu is still due |
| BackHarm.LeavingIsReached | src/main.rs:672-698 | a run in which a submenu was left from inside for standby, its close notice is still due, and the camera may not be started |
| TextOrder.CmpTextTransitive | src/itemcache.rs:29-36 | the string order is transitive |
| TextOrder.PrefixIsContiguous | src/itemcache.rs:217-267 | of three strings in order, if the outer two start with a prefix so does the middle one |
| ItemCache.CmpKeyLaws | src/itemcache.rs:29-36 | comparing keys the other way round gives the opposite answer, and equal means equal name and guid |
| ItemCache.CmpKeyTransitive | src/itemcache.rs:29-36 | the order of keys is transitive |
| ItemCache.SortedIsAscendingPermutation | src/itemcache.rs:179-183 | sorting gives an ascending permutation of the list |
| ItemCache.SortedIsStable | src/itemcache.rs:179-183 | items with the same key keep their order |
| ItemCache.BinarySearchBy | src/itemcache.rs:184-192 | the search answers an index that compares equal, or the one place to insert |
| ItemCache.InsertAscends | src/itemcache.rs:184-192 | inserting where a missed search says keeps the list strictly ascending |
| ItemCache.InsertRefines | src/itemcache.rs:184-192 | inserting a new key is the map update at that key, and keys stay distinct |
| ItemCache.ReplaceAt | src/itemcache.rs:206-215 | replacing an item by one with the same key, in place, keeps the order and is the map update at that key |
| ItemCache.RemoveRefines | src/itemcache.rs:194-204 | removing an item is removing its key from the map |
| ItemCache.PushAt | src/itemcache.rs:163-166 | pushing an item whose key is absent is the map update; keys stay distinct |
| ItemCache.SearchReadsTheMap | src/itemcache.rs:206-215 | a search by key finds an item exactly when the map has the key, and it is the map's item |
| ItemCache.NoMatchAtLanding | src/itemcache.rs:217-267 | if the item the search lands on does not start with the criteria, no item does |
| ItemCache.WindowIsTheRunOfMatches | src/itemcache.rs:217-267 | whatever allowed index the search gives, the window is absent exactly when nothing matches, holds only matches, every match from index 1 on, and item 0 exactly when the search landed on it |
| ItemCache.WindowShowsAllUnlessARunIsInFront | src/itemcache.rs:237-263 | the window shows every match for every allowed search answer if and only if the list does not start with two items named as the criteria |
| ItemCache.FilterCanMissTheFirstItem | src/itemcache.rs:245-251 | a concrete list of two items whose first drops out of the window |
| ItemCache.CaseBlindIff | src/itemcache.rs:217-243 | comparing the criteria as typed finds what a comparison in lower case would, for every name, if and only if they hold no letter that lower-casing changes |
| ItemCache.UpperCaseFindsNothing | src/itemcache.rs:237-243 | with such a letter nothing matches in any list of lower-cased names, wherever the search lands, so the range is absent |
| FilteredList.FilteredListView.Push | src/itemcache.rs:163-166 | an append that marks the list unsorted; guarded by an absent key it is the map update |
| FilteredList.FilteredListView.Clear | src/itemcache.rs:168-173 | the empty map, no window |
| FilteredList.FilteredListView.EnsureSorted | src/itemcache.rs:179-183 | lazy sorting: an ascending permutation, the same map |
| FilteredList.FilteredListView.InsertUnique | src/itemcache.rs:179-192 | the map update, with the item it replaced; the window is dropped and the order kept |
| FilteredList.FilteredListView.Remove | src/itemcache.rs:194-204 | the map without the key, with the item removed |
| FilteredList.FilteredListView.Get | src/itemcache.rs:206-215 | the index of the key's item exactly when the map has the key; the map is unchanged |
| FilteredList.FilteredListView.Filter | src/itemcache.rs:217-267 | the window of the criteria for the search's answer, in bounds; empty criteria show everything; the map is unchanged |
| FilteredList.FilteredListView.FirstMatch | src/itemcache.rs:245-251 | the backward scan stops at the first match of the run and never looks at index 0 |
| FilteredList.FilteredListView.PastMatches | src/itemcache.rs:254-262 | the forward scan stops at the first item past the run |
| FilteredList.FilteredListView.FilteredList | src/itemcache.rs:285-287 | the items shown are the window, or all items when there is none |
| FilteredList.Apply | src/itemcache.rs:163-215 | each operation on the view does to its map, and answers, what the map operation does |
| FilteredList.Replay | src/itemcache.rs:134-287 | over every interleaving of operations, keys stay distinct, the range stays in bounds, and map and answers are those of a finite map |
| PasswordList.MergeOne | src/actions.rs:1220-1250 | merging a record refreshes the item with its key in place or pushes a new one: the map update, order and distinct keys kept |
| PasswordList.RetrievePasswords | src/actions.rs:1197-1280 | the whole loop is the merge of every decodable record in turn, counts the keys without data, and shows everything |
| PasswordList.EveryRecordMerged | src/actions.rs:1197-1274 | with distinct key names, afterwards every decodable record has the item under its lower-cased description and its key, with its description, key, time and count of use; the extra text is the user name, or the one there was when the use did not change |
| PasswordList.OthersUntouched | src/actions.rs:1197-1274 | items whose keys belong to no record stay as they were |
| PasswordList.ReloadIsIdempotent | src/actions.rs:1197-1274 | merging the same records again changes nothing |
| PasswordList.MissingAreCounted | src/actions.rs:1197-1280 | the count is the number of keys that came without their data |
| ClientPins.PaddingIsStripped | src/ctap/client_pin.rs:62-79 | whatever follows the first zero byte of the padded PIN, the PIN is what precedes it |
| ClientPins.Store.DecrRetries | src/ctap/storage.rs:337-345 | one retry less, never below zero; nothing is written at zero or when the write fails |
| ClientPins.ClientPin.constructor | src/ctap/client_pin.rs:117-126 | re-creating the object renews keys and tokens and zeroes the mismatch count; the stored entries stay |
| ClientPins.ClientPin.VerifyPinHashEnc | src/ctap/client_pin.rs:161-199 | the comparison of a guess: the lock and the spent retry come first, a miss renews the key and counts, a hit restores |
| ClientPins.ClientPin.CheckAndStoreNewPin | src/ctap/client_pin.rs:81-97 | a new PIN is stored with its length, and the forced change lifted with it, exactly when it is long enough, not over-long and the write succeeds |
| ClientPins.ClientPin.ProcessSetPin | src/ctap/client_pin.rs:229-254 | state and status of setting a first PIN, for every input and failed write |
| ClientPins.ClientPin.ProcessChangePin | src/ctap/client_pin.rs:256-292 | state and status of changing the PIN |
| ClientPins.ClientPin.ProcessGetPinToken | src/ctap/client_pin.rs:294-345 | state and answer of asking for a token |
| ClientPins.ClientPin.ProcessGetTokenUsingPin | src/ctap/client_pin.rs:362-389 | the same with permissions, which are checked first and set last |
| ClientPins.ClientPin.ProcessCommand | src/ctap/client_pin.rs:391-432 | every sub-command, and version 1 refused where the policy says so |
| ClientPins.ClientPin.ProcessSetMinPinLength | src/ctap/config_command.rs:45-75 | the forced change is written before the new minimum, and a failed write leaves what was written before it |
| ClientPins.ClientPin.ProcessConfig | src/ctap/config_command.rs:77-127 | with a PIN set, a configuration command needs a live token with the permission |
| PinSafety.VerifyKeepsInv | src/ctap/client_pin.rs:161-199 | a comparison keeps retries left plus attempts equal to the maximum and the mismatch count within both |
| PinSafety.StepKeepsInv | src/ctap/client_pin.rs:391-432 | every command, configuration, timeout and power cycle keeps the joint invariant, whichever writes fail |
| PinSafety.RunKeepsInv | src/ctap/client_pin.rs:391-432 | so it holds in every state of every run from a reset |
| PinSafety.RetriesAreConserved | src/ctap/client_pin.rs:161-199 | in every run, retries left plus comparisons since the last success equal the maximum; mismatches stop at three |
| PinSafety.NoFreeGuess | src/ctap/client_pin.rs:161-199 | two guesses the device tells apart have each cost a retry or were right; only the stored hash is accepted |
| PinSafety.NothingWithoutTheRightPin | src/ctap/client_pin.rs:229-345 | in every run, without the stored PIN's hash a command yields no token, restores no retry and replaces no PIN; a PIN it does store is long enough |
| PinSafety.TokenIff | src/ctap/client_pin.rs:294-345 | a token is given if and only if the PIN is right and good, the device not locked, no permissions are named and the two retry writes succeed |
| PinSafety.LockedCommandsDoNothing | src/ctap/client_pin.rs:161-180 | at three mismatches or zero retries no PIN command changes anything or returns a token |
| PinSafety.ZeroRetriesStay | src/ctap/client_pin.rs:117-126 | in every run, zero retries last through everything, power cycles included, and the PIN stays |
| PinSafety.MismatchLockHolds | src/ctap/client_pin.rs:161-199 | in every run, three mismatches keep PIN, retries and lock until the next power cycle |
| PinSafety.PolicyHolds | src/ctap/config_command.rs:45-75 | in every run, a stored PIN has the minimum length or must be changed |
| PinSafety.TokensNeedAGoodPin | src/ctap/client_pin.rs:317-345 | in every run, a token is returned only for a PIN that is set, long enough and not due for a change, on an unlocked device |
| PinSafety.MinLengthNeverShrinks | src/ctap/config_command.rs:45-75 | in every run, the minimum length only grows |
| PinSafety.ConfigNeedsAToken | src/ctap/config_command.rs:77-127 | with a PIN set, nothing a configuration command changes is changed without a verified token that has the permission |
| PinSafety.TokenInUseWasEarned | src/ctap/client_pin.rs:294-389 | in every run a token in use was asked for with the stored PIN at an earlier step that drew it, with the permissions it has, and no power cycle or expiry came since; its value was drawn then or at a change of PIN by who knew it, and the PIN has not changed after that |
| PinSafety.PolicyChangesAreEarned | src/ctap/config_command.rs:77-127 | in every run, a policy changed under a PIN was changed after a request with that device's PIN that asked for the configuration permission, in the same power cycle, and its message was verified under a value drawn with the PIN that is set |
| PinSafety.RunDevice | src/ctap/client_pin.rs:161-452 | the objects driven through any events follow a run; retries and comparisons add up to the maximum, a token is answered only to the right PIN on a device that may hand one out, and one in use was earned in this power cycle |
| PinEffects.ChangePinIff | src/ctap/client_pin.rs:256-292 | exactly when a change of PIN is granted - the right PIN, both parts signed, an acceptable new PIN, no lock, no failed write - and that then the PIN sent is stored by hash and length, no change is due, the retries are back and the tokens new |
| PinEffects.GrantedChangeCarries | src/ctap/client_pin.rs:256-292 | a change that is granted did carry a PIN |
| PinEffects.SetPinIff | src/ctap/client_pin.rs:229-254 | exactly when a first PIN is set, and that what is stored, even when the retries could not be written, is the PIN sent |
| PinEffects.GrantedPinCounts | src/ctap/client_pin.rs:161-292 | in every run, from a granted PIN on until someone who sends it asks for a change, a request is right exactly when it carries the first 16 bytes of that PIN's hash |
| PinEffects.GrantedToken | src/ctap/client_pin.rs:294-389 | a token handed out is the new one of its protocol, encrypted under the agreed secret, in use, with exactly the permissions and RP asked for, or the defaults |
| PinEffects.TokenUsingPinIff | src/ctap/client_pin.rs:362-389 | exactly who gets a token with permissions |
| PinEffects.WrongPinIsAnswered | src/ctap/client_pin.rs:161-199 | a wrong PIN costs a retry, renews the key agreement of its protocol only, and the error says what is left |
| PinEffects.QueriesTellTheState | src/ctap/client_pin.rs:201-227 | the status queries tell the retries left, whether only power-off helps, and the key of the protocol asked about |
| PinEffects.MissingIsNamed | src/ctap/client_pin.rs:229-389 | a command that lacks a parameter changes nothing and says so, whatever the state |
| PinEffects.RefusalsAreNamed | src/ctap/client_pin.rs:229-432 | the other refusals that look at no PIN, each by its error |
| PinEffects.TokenRefusalsAreNamed | src/ctap/client_pin.rs:294-345 | why a complete request for a token is refused: no retries, no PIN, a lock, or a change that is due |
| PinEffects.ToggleIff | src/ctap/config_command.rs:39-127 | exactly when required verification is switched, and that nothing else changes |
| PinEffects.SetMinLengthIff | src/ctap/config_command.rs:45-127 | exactly when the minimum length is set, and that then it is the one asked for, with a change of PIN due if asked for or needed, and the RP list replaced if one was sent |
| CredentialManagement.StoredRpIdsAre | src/ctap/credential_management.rs:37-45 | the RP list is strictly ascending and holds exactly the RPs of stored credentials, each once |
| CredentialManagement.GetStoredRpIds | src/ctap/credential_management.rs:37-45 | the loop inserting into a set gives that list |
| CredentialManagement.KeysOfAre | src/ctap/credential_management.rs:175-214 | the keys collected for an RP hash are exactly those of its credentials, each once |
| CredentialManagement.KeysKeepTheOrder | src/ctap/credential_management.rs:175-215 | those keys come in the order the store lists their credentials |
| CredentialManagement.StatefulPermission.Admit | src/ctap/mod.rs:429-455 | a held command survives only on its own channel and within its time |
| CredentialManagement.ProcessCredentialManagement | src/ctap/credential_management.rs:257-340 | answer and held command of every sub-command |
| CredentialManagement.EnumeratesEveryRpOnce | src/ctap/credential_management.rs:139-173 | begin and then next return every RP once, in order, the first answer announcing how many; every further next is refused |
| CredentialManagement.EnumeratesEveryCredentialOnce | src/ctap/credential_management.rs:175-224 | begin and then next return every credential of the RP once; every further next is refused |
| CredentialManagement.InterruptionEndsEnumeration | src/ctap/credential_management.rs:272-284 | after any call but a granted begin of the kind and the matching next in time on its channel - the other kind's begin included, granted or not - every further next of the kind in any sequence of calls is refused until a begin of it is granted |
| CredentialManagement.EveryNextIsAnswered | src/ctap/credential_management.rs:139-340 | in any run of calls, a next is answered with the entry whose turn it is in the unbroken enumeration it continues, and refused when it continues none |
| CredentialManagement.RunCalls | src/ctap/credential_management.rs:257-340 | the object that holds the state answers any sequence of calls so |
| CredentialManagement.OtherAnswers | src/ctap/credential_management.rs:257-340 | what a refused begin and the plain sub-commands answer, and that they hold on to nothing |
| Apdu.ParseThenEncode | src/ctap/apdu.rs:119-251 | an accepted frame is well formed, its length field is the data length, and encoding it gives the frame back |
| Apdu.EncodeThenParse | src/ctap/apdu.rs:119-251 | every well-formed encoding of the accepted shapes parses to what was encoded |
| Apdu.EncodeIsInjective | src/ctap/apdu.rs:119-251 | no two APDUs share a frame |
| Apdu.RefusedAs | src/ctap/apdu.rs:119-251 | exactly which frames are refused with which of the three errors |
| Apdu.ReadAsMeantIff | src/ctap/apdu.rs:182-251 | over the command frames of ISO/IEC 7816-4, section 5.1, written as a grammar of their own: the parser reads header, data and expected length as meant if and only if the frame is not case 2E |
| Apdu.Case2EIsMisread | src/ctap/apdu.rs:182-251 | a case 2E frame is an error unless both length bytes are zero; then it is accepted with expected length 0 instead of 65536 |
| Padding.Buffer.AddPadding | src/ctap/credential_id.rs:133-141 | padding succeeds exactly for 1 to 191 bytes and gives the block of section 6.3 of RFC 5652; otherwise the data is untouched |
| Padding.Buffer.RemovePadding | src/ctap/credential_id.rs:143-160 | stripping accepts exactly the blocks that are a padding of something and gives that back |
| Padding.PaddingIsUnique | src/ctap/credential_id.rs:133-160 | a block is the padding of at most one thing |
| Padding.PadThenStrip | src/ctap/credential_id.rs:133-160 | padding and stripping gives the data back for every length from 1 to 191 |
| CredentialIds.EncryptToCredentialId | src/ctap/credential_id.rs:166-194 | encryption succeeds exactly when the CBOR is 1 to 191 bytes; the ID is 241 bytes: version, IV, encrypted padded CBOR, and a MAC over all of it |
| CredentialIds.DecryptCbor | src/ctap/credential_id.rs:92-129 | the CBOR read is the one padded; a plaintext that is no padding is an internal error |
| CredentialIds.CborSays | src/ctap/credential_id.rs:92-131 | what the CBOR of an ID leads to: errors for damage and for a bad RP hash, no source for a missing field, otherwise the source with all four fields |
| CredentialIds.DecryptCredentialId | src/ctap/credential_id.rs:213-271 | IDs of other lengths, versions or MACs are unknown; the ID of a source, new or legacy, gives exactly it for its RP hash and nothing for another |
| CredentialIds.EncryptThenDecrypt | src/ctap/credential_id.rs:166-271 | for every source that fits, decrypting its ID gives it for the same RP hash and nothing for another; an error means it did not fit |
| TextFormat.ReadShow | src/storage.rs:638-661 | a number printed in any base from 2 to 16 reads back, for every size that holds it |
| TextFormat.ReadAccepts | src/storage.rs:562-636 | exactly which texts are read as a number below a bound: digits of the base, at most a plus sign in front |
| TextFormat.SplitJoin | src/storage.rs:562-580 | lines that hold no line break are split exactly as they were joined |
| TextFormat.PrintedReadsAsFields | src/storage.rs:562-661 | reading printed tagged lines is assigning the fields in turn, colons in the data included |
| TotpRecords.ReadInto | src/storage.rs:562-636 | the line loop is reading the lines in turn, ending at the first bad field |
| TotpRecords.TryFrom | src/storage.rs:670-757 | the other reader, from a record of the current version |
| TotpRecords.PrintedLines | src/storage.rs:637-661 | the stored text is these nine lines, tag by tag, in this order |
| TotpRecords.LinesAssign | src/storage.rs:562-636 | a text line is appended to its field, a number line replaces it, an algorithm line is one of four, and a line of no known tag is skipped |
| TotpRecords.BadLinesAreNamed | src/storage.rs:562-636 | a line is refused only for a number that is none or too wide for its field, or an unknown algorithm, by the error of that field |
| TotpRecords.EmptyTextReads | src/storage.rs:562-757 | an empty text reads as the record each reader starts from |
| TotpRecords.TotpRecord.FromVec | src/storage.rs:562-636 | the object's fields after reading are those of the specified record, or the error is |
| TotpRecords.TotpRoundTrip | src/storage.rs:562-661 | printing a record and reading it gives it, with no algorithm read as SHA1, if and only if its texts hold no line break |
| TotpRecords.ReadersAgreeOnPrinted | src/storage.rs:670-784 | both readers give a printed record back |
| TotpRecords.ReadersAgreeIff | src/storage.rs:562-757 | on any text the two readers agree if and only if both fail alike or the lines they default differently are there |
| PasswordRecords.TryFrom | src/storage.rs:932-1000 | the reader from a record of the current version is reading the lines in turn |
| PasswordRecords.PrintedLines | src/storage.rs:901-922 | the stored text is these eight lines, tag by tag, in this order |
| PasswordRecords.LinesAssign | src/storage.rs:845-899 | a text line is appended to its field, a number line replaces it, and a line of no known tag is skipped |
| PasswordRecords.BadLinesAreNamed | src/storage.rs:845-899 | a line is refused only for a number that is none or too wide for its field, by the error of that field |
| PasswordRecords.EmptyTextReads | src/storage.rs:845-1000 | an empty text reads as the record each reader starts from |
| PasswordRecords.PasswordRecord.Clear | src/storage.rs:826-836 | a reused record is blank again |
| PasswordRecords.PasswordRecord.FromVec | src/storage.rs:845-899 | the reused object's fields after reading are those of the specified record, or the error is |
| PasswordRecords.PasswordRoundTrip | src/storage.rs:845-922 | printing a record and reading it gives it if and only if its texts hold no line break |
| PasswordRecords.ReadersAgreeIff | src/storage.rs:845-1000 | on any text the two readers agree if and only if both fail alike or the version line is there |
| BookmarkKeys.KeyIsSixteenDigits | src/storage.rs:345-355 | a key is sixteen hexadecimal digits that read back as its number for every u64, so it is never the counter's own name |
| BookmarkKeys.KeysSortAsNumbers | src/storage.rs:345-355 | keys compare as their numbers do, for every pair of u64 |
| FixedDigits.PaddedOrder | src/storage.rs:340-355 | numbers that fit the width sort as their zero-padded texts do, in any base from 2 to 16 |
| FixedDigits.ShowGrows | src/storage.rs:345-355 | a larger number's text is never shorter, in any base from 2 to 16 |
| FixedDigits.TextsSortIff | src/storage.rs:1187-1208 | any two numbers sort as zero-padded texts as they do as numbers if and only if they are equally wide or the smaller is at most the larger without the digits it has more |
| FixedDigits.CutDivides | src/storage.rs:1187-1208 | taking d digits off a number is dividing by the d-th power of the base |
| Bookmarks.BodyRoundTrip | src/storage.rs:357-422 | a bookmark read from its stored body is the one stored if and only if no part of it holds a line break |
| Bookmarks.BadBodiesAreNamed | src/storage.rs:397-422 | a body is refused for missing lines, or for a time that is no 64-bit number, each by its error |
| Bookmarks.TrimTakesBlanks | src/storage.rs:415-420 | trimming takes off the blanks at both ends and nothing else |
| Bookmarks.OverwriteCounter | src/storage.rs:345-355 | writing the counter over the old one without truncating leaves no stale digit |
| Bookmarks.BookmarkStore.NextKey | src/storage.rs:318-355 | the key handed out is the next number's, not in the dictionary; the counter text stays that number's; at the last u64 nothing is handed out |
| Bookmarks.BookmarkStore.Store | src/storage.rs:357-379 | a stored bookmark goes to the end of the live ones under a new key; when opening or writing its entry fails the number is used up, no key is given out, and whatever the write left is the entry |
| Bookmarks.BookmarkStore.Delete | src/storage.rs:1235-1241 | only the bookmark under the key goes; the others keep their order |
| Bookmarks.BookmarkStore.LoadBookmarks | src/ux.rs:451-492 | sorting by key lists every entry that reads as text with its first two lines, in the order of storing, and skips the rest |
| Bookmarks.StoredIsListed | src/ux.rs:451-492 | a bookmark stored whole is listed with its own URL and label if and only if they are one line each |
| Bookmarks.Replay | src/storage.rs:318-379 | over any run of stores and deletes, with any failures, the numbers of the keys given out rise, so no key is issued twice |
| PhotoKeys.KeyReads | src/storage.rs:1202-1208 | a photo's key is "photo_" and at least four digits, and the number in it is the one it was made from, for every u32 |
| PhotoKeys.NextKeyIsNew | src/storage.rs:1201-1208 | one above the highest number there is never names an existing key, whatever else is in the dictionary |
| PhotoKeys.NumbersRiseIff | src/storage.rs:1195-1216 | over any run of stores and deletes from an empty dictionary: the numbers issued rise, and none is issued twice, if and only if nothing is stored after the photo with the highest number was deleted |
| PhotoKeys.Replay | src/storage.rs:1195-1233 | the dictionary object through any run, with any failed writes, follows such a history; the names it gives out are all different as long as nothing is stored after the highest was deleted |
| PhotoKeys.KeysSortIff | src/storage.rs:1187-1208 | two photos' keys sort as their numbers if and only if both have the same padded width or the smaller is at most the larger without the digits it has more |
| PhotoKeys.ListRisesIff | src/storage.rs:1187-1191 | the list sorted by key is in the order of the numbers if and only if each pair in it is |
| PhotoKeys.LowKeysRise | src/storage.rs:1187-1208 | below 10000 every pair is |
| PhotoKeys.PhotoDict.Next | src/storage.rs:1202-1207 | the scan over the keys gives one above the highest number, or zero |
| PhotoKeys.PhotoDict.Store | src/storage.rs:1195-1216 | a photo is stored under the next key, which is new, and no other key changes; at the cap, without a number or when the key cannot be opened nothing changes; a failed write leaves a partial entry and gives no key |
| Bits.BitOfOr | src/ux.rs:1379-1384 | a bit of x OR y is set when either's is |
| Bits.ClearingABit | src/ux.rs:1379-1384 | AND with the complement of one bit clears that bit of the word and no other |
| Photos.SamePixels | src/ux.rs:1452-1462 | a photo's packed words are determined by its pixels |
| BmpExport.SetInk | src/ux.rs:1454-1457 | setting the bit of a pixel in the raster inks that pixel and no other |
| BmpExport.Raster | src/ux.rs:1451-1460 | the raster's ink is exactly the photo's pixels |
| BmpExport.PhotoToBmp | src/ux.rs:1425-1462 | the file is 2110 bytes: the header and a raster with exactly the photo's pixels |
| BmpExport.HeaderReads | src/ux.rs:1432-1450 | every export is a BMP of a 128 by 128 bitmap in two colours, white and black, field by field from the letters "BM" to the palette, and the host finds offset 62, width 128, height -128 and depth 1 in it |
| BmpExport.HostRows | tools/show-export.py:60-80 | the host refuses exactly what does not start with "BM", and what it reads from the export of a photo is that photo's rows |
| BmpExport.BmpRoundTrip | src/ux.rs:1425-1462 | writing and reading recovers every pixel of every photo |
| Base64.LettersAreTheSet | src/ux.rs:1466-1469 | the alphabet by runs is the table the encoder indexes |
| Base64.Encode64 | src/ux.rs:1466-1479 | the chunk loop gives the encoding group by group |
| Base64.EncodedLength | src/ux.rs:1466-1479 | the text has 4 * ceil(n / 3) characters |
| Base64.CutCounts | src/ux.rs:1470-1479 | the four characters of a group are its bytes as one number to the base 64, with padding exactly for the bytes there are not |
| Base64.DecodeEncode | src/ux.rs:1466-1479 | decoding by section 4 of RFC 4648 gives back every byte string |
| Base64.EncodeDecode | src/ux.rs:1466-1479 | every text a strict decoder accepts is the encoding of what it decodes to |
| AsciiArt.DrawLine | src/ux.rs:1502-1510 | a line is the 128 marks of two rows of pixels |
| AsciiArt.Draw | src/ux.rs:1494-1514 | the text is exactly 64 lines of 128 marks |
| AsciiArt.DrawingsDiffer | src/ux.rs:1494-1514 | two different photos never give the same text |
| AsciiArt.HostSeesThePhotoIff | tools/show-export.py:83-97 | the host reads the photo off the text if and only if every pair of rows has ink |
| PhotoTyping.Export | src/ux.rs:1536-1549 | the whole way from the frame through BMP, base64 and data URI to the host's rows gives every photo back |
| PhotoTyping.FramingComesOff | tools/show-export.py:48-62 | the prefix and the line end around an encoding are all that the host takes off before decoding |
| PhotoGrid.CellsAreDisjoint | src/ux.rs:1347-1370 | the four cells do not overlap and lie inside the frame |
| PhotoGrid.SlotsReadLikeText | src/ux.rs:1347-1370 | the slots fill the frame in reading order, two to a row, 8 pixels in on both sides and one from the top |
| PhotoGrid.ScaledSamples | src/ux.rs:1370-1374 | the coordinate read is the nearest neighbour at every offset |
| PhotoGrid.PutPixel | src/ux.rs:1376-1384 | setting or clearing one bit of the packed frame changes that pixel and no other |
| PhotoGrid.DrawCell | src/ux.rs:1366-1386 | afterwards every pixel of the cell at offset d across or down is the source pixel s with s * 54 <= d * 128 < (s + 1) * 54, and every other pixel is as before |
| PhotoGrid.Compose | src/ux.rs:1346-1387 | for any photos and cursor, on the page of four that holds the cursor, filled cells show their photos so scaled and every other pixel of the frame is set |
| PhotoGrid.FrameIsDetermined | src/ux.rs:1346-1387 | that specification fixes every pixel: only one frame meets it |
| Generator.ToPools | src/generator.rs:106-129 | at most four pools, none empty, no two overlapping, together exactly the characters allowed: all of the letter and digit ranges asked for and the chosen symbols |
| Generator.FullMask | src/generator.rs:143-161 | a mask of n bits equals the target exactly when every bit is set |
| Generator.Mark | src/generator.rs:151-157 | after a character the mask holds exactly the pools hit so far |
| Generator.Handle | src/generator.rs:141-165 | the check copies the draw and says true exactly when it is not empty and hits every pool |
| Generator.Generate | src/generator.rs:133-177 | a strict password is the first draw that hits every pool, a lax one the first draw; length and characters are those asked for |
| Generator.EachPoolTakesACharacter | src/generator.rs:133-177 | hitting every one of disjoint pools takes as many characters as there are pools |
| Generator.StrictCanSucceedIff | src/generator.rs:133-177 | some draw ends strict generation if and only if there is a pool and the length is at least the number of pools, assuming that the picker can yield every string over the union |

## Left out

* Drawing, fonts, power, boot, timers, the camera, USB and the message server: the main loop's messages
  are a sequence, the store a map, and what the camera, the modals and the stores answer while a message
  is handled is a parameter (`World`, `Camera`), so the theorems hold for every answer.
* A key press is assumed to reach a menu widget only when no widget message is outstanding. A key
  swallowed just after a menu closes is no step of the model.
* Serial console requests, factory, jig, token, tour, gene and power-off entries of the main loop, and the
  redraws. The serial ones move list cursors, so the confirmation theorems speak of which action was asked
  about, not of which item.
* `MenuMatic`'s own code is not part of this model: deleting an entry is taken to remove every entry with
  that label, adding one to append it.
- JogMeansStandby: speaks of the keys the main loop acts on; cursor movement and page scrolling inside a
  screen are not modelled.
- HandlePost: the decoding of a picture into text is a parameter, and of a decoded text only its kind.
* `to_lowercase` is any function on strings; where it matters, one that leaves no letter it would change.
  The library's search may answer any index its contract allows. The one-time-code list, the edit and rename paths of the menu and `find_by_name` are not modelled.
- MergeOne: an item is edited through its index; the reference that `get` returns is not a separate object.
* Cryptography, CBOR, the random source and UTF-8 are parameters with the laws they are used for; a PIN's
  code points are a number no larger than its bytes.
* Store reads succeed; store writes may fail, one flag each. `authenticatorReset` starts a new run. The
  default list of RP IDs is empty, so setting the list does not merge it.
- OnConfig: enterprise attestation and vendor commands are the unsupported case; the user-verification
  subcommands without a PIN are the invalid one.
* The token's usage timer is one event that ends its use, at any time. The commands that use a token to
  make or assert a credential, and then take its permissions away, are not modelled.
- EnumeratesEveryRpOnce: the token checks are one flag of the call, and the store does not change during
  the enumeration.
- ProcessCredentialManagement: the same, and deleting, updating and metadata answer only that they are done.
- EnumeratesEveryCredentialOnce: the same; deriving a public key for an answer is not modelled.
* Deleting credentials, updating user data and the metadata counts of credential management: single reads
  and writes of the store, which is a parameter there.
- DecryptCredentialId: key bytes stand for the key; the Ed25519 variant and its feature flag are inside the
  CBOR parameter.
- TotpRoundTrip: texts are sequences of characters, so bytes that are not UTF-8 are outside it (both readers
  refuse them).
* Importing a code from a URI and hashing records.
- PhotoKeys.PhotoDict.Store: the photo cap is a parameter, its value being in a crate that is not part of
  this model; at the last 32-bit number the program would overflow, here nothing is stored.
- NextKey: at the last 64-bit number the program would overflow; here nothing is handed out.
- Bookmarks.BookmarkStore.Store: the counter write either fails with the counter unchanged or succeeds.
- HostRows: a host reader of a width that is not a whole number of bytes fails in its indexing and is not
  modelled.
- Export: the host's base64 library is the strict decoder; its leniency with damaged text is not modelled.
- HostSeesThePhotoIff: lines end at line feeds only, which is all the badge sends over USB.
* The serial port's carriage returns and the chunking of typed text.
- Generate: the random picker's draws are given as a sequence, each of the length asked for and from the
  pools' union (empty when that is empty); None means that none of them would do. A mask has 30 bits, as
  the program's 32-bit signed one.
* Writing and reading the generator's settings file.
