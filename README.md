# Input-method, SIM and user settings: a Dafny model

This project models three parts of the Android Settings application and proves properties
of the model.

- **Input-method settings** (`InputMethodAndSubtypeUtil`). The phone stores which input
  methods and which of their subtypes are enabled as one string, `ime0;hash0;hash1:ime1`.
  It also stores the system input methods the user has turned off as a `:`-joined id list.
  - `ime_settings_codec.dfy` models the parsers and the three serialisers. It proves each
    round trip: parsing what a serialiser wrote gives back the map or set. A serialiser
    walks a hash map in an unspecified order, so it picks the next key
    nondeterministically and returns a ghost record of the order it used.
  - `input_method_and_subtype_util.dfy` models the reconcile pass
    `saveInputMethodSubtypeList`. The pass walks the installed input methods in order and
    updates the enabled map, the set of disabled system input methods, the current input
    method and a "reset the selected subtype" flag. The file also models the inverse pass
    that sets the check boxes from the map, the selected-subtype helpers and the removal of
    non-persistent preferences.
  - The four stored settings are an explicit `SecureSettings` value: read at the start,
    written at the end. The preference screen is two lookup maps:
    - input-method id to its preference: absent, plain, or two-state with a checked state;
    - (id, subtype hash) to the checked state of that subtype's preference.
  - Each imperative method is proved against a specification function: `Pass`/`ImeStep`,
    `ParseEntries` and `EnabledString`. The lemmas then state what the source promises
    about those functions.
- **SIM settings** (`SimSettings`). `sim_settings.dfy` models:
  - the screen class, with its activated-record list and its per-slot available records;
  - the two record searches;
  - the three drop-downs (cellular data, calls, SMS), optionally led by an "ask first" item;
  - what a selection writes;
  - which item is highlighted for the current default subscription.
- **Users** (`UserSettings`). `user_settings.dfy` models:
  - the guard fields (`mRemovingUserId`, `mAddingUser`, the icon cache) as a class whose
    event methods update them;
  - the per-user rules as functions: the row buttons, the summary, the default avatar, the
    initialized flag and whether the add entry is enabled.

`strings.dfy` holds the token splitting of `TextUtils.SimpleStringSplitter`, joining, and
the decimal rendering of `String.valueOf(int)`, which is proved injective.

Platform services are parameters or results. This covers the settings provider, the
subscription service, the user manager, `isSystemIme` and `isAlwaysCheckedIme`. Threads
and handlers are reduced to events and returned messages.

`TextUtils.SimpleStringSplitter` is not part of this model. `Split` follows its behaviour:
every separator delimits a token, empty interior tokens included, and the splitter stops once
its position reaches the end of the string. So the empty string yields no token, and a
trailing separator adds no empty token.

## Model

| member | source | states |
|---|---|---|
| Strings.Split | src/com/android/settings/inputmethod/InputMethodAndSubtypeUtil.java:121-125 | the splitter yields no token exactly for the empty string |
| Strings.SplitOfJoin | src/com/android/settings/inputmethod/InputMethodAndSubtypeUtil.java:55-89 | splitting a join of separator-free tokens whose last token is non-empty gives the tokens back |
| Strings.SplitTrailingSeparator | src/com/android/settings/inputmethod/InputMethodAndSubtypeUtil.java:121-125 | a string ending in the separator splits into the pieces before that separator: no empty final token |
| Strings.TokensOfJoin | src/com/android/settings/inputmethod/InputMethodAndSubtypeUtil.java:55-89 | the pieces of a join are exactly the joined tokens, when none holds the separator |
| Strings.JoinEnds | src/com/android/settings/inputmethod/InputMethodAndSubtypeUtil.java:67-75 | a join begins with its first token and ends with its last, so the separator neither leads nor trails |
| Strings.IntToString | src/com/android/settings/inputmethod/InputMethodAndSubtypeUtil.java:187 | `String.valueOf(hash)` is non-empty, made of digits after an optional leading minus, and starts with `-` exactly for negative numbers |
| Strings.IntToStringInjective | src/com/android/settings/inputmethod/InputMethodAndSubtypeUtil.java:187 | two subtype hashes with the same string form are equal |
| Strings.IntToStringAvoids | src/com/android/settings/inputmethod/InputMethodAndSubtypeUtil.java:45-46 | a hash's string form never contains `:` or `;` |
| ImeSettingsCodec.ParseEnabled | src/com/android/settings/inputmethod/InputMethodAndSubtypeUtil.java:118-120 | a missing or empty enabled string parses to the empty map |
| ImeSettingsCodec.ParseDisabled | src/com/android/settings/inputmethod/InputMethodAndSubtypeUtil.java:142-148 | a missing or empty disabled string gives the empty set; otherwise an id is in the set exactly when it is one of the `:`-tokens |
| ImeSettingsCodec.EntryId | src/com/android/settings/inputmethod/InputMethodAndSubtypeUtil.java:124-128 | defines the id an entry contributes (its first `;`-token, none for an empty entry); `EmptyEntryAddsNoKey` and `EntryStringTokens` state it on empty and written entries |
| ImeSettingsCodec.EntryHashes | src/com/android/settings/inputmethod/InputMethodAndSubtypeUtil.java:126-131 | defines the hash set an entry contributes (its `;`-tokens after the first); `AddEntryOfEntryString` states it on written entries |
| ImeSettingsCodec.AddEntry | src/com/android/settings/inputmethod/InputMethodAndSubtypeUtil.java:125-133 | defines one `put`: an entry with an id replaces that id's set, and one without changes nothing; `ParseEntriesStructure` states the resulting overwrite rule |
| ImeSettingsCodec.ParseEntries | src/com/android/settings/inputmethod/InputMethodAndSubtypeUtil.java:121-134 | defines the map built by reading the entries first to last; `ParseEntriesStructure` and `GetEnabledInputMethodsAndSubtypeList` are stated with it |
| ImeSettingsCodec.LastEntryFor | src/com/android/settings/inputmethod/InputMethodAndSubtypeUtil.java:121-134 | finds the last entry whose first `;`-token is the id, or reports that no entry has it |
| ImeSettingsCodec.ParseEntriesStructure | src/com/android/settings/inputmethod/InputMethodAndSubtypeUtil.java:121-134 | an id is a key exactly when some entry starts with it, and its set is the remaining tokens of the last such entry (a repeated id keeps only its last set) |
| ImeSettingsCodec.EmptyEntryAddsNoKey | src/com/android/settings/inputmethod/InputMethodAndSubtypeUtil.java:124-125 | an entry with no token adds no key |
| ImeSettingsCodec.ParseSkipsEmptyEntryExample | src/com/android/settings/inputmethod/InputMethodAndSubtypeUtil.java:121-134 | `ime1;sub1::ime2` parses to `{ime1: {sub1}, ime2: {}}` |
| ImeSettingsCodec.SplitExampleEntries | src/com/android/settings/inputmethod/InputMethodAndSubtypeUtil.java:121-123 | an empty interior piece is a token of its own |
| ImeSettingsCodec.ExampleFirstEntry | src/com/android/settings/inputmethod/InputMethodAndSubtypeUtil.java:124-131 | an entry's first token is the id and the rest are its hashes |
| ImeSettingsCodec.ExampleLastEntry | src/com/android/settings/inputmethod/InputMethodAndSubtypeUtil.java:124-132 | an entry with only an id maps it to the empty set |
| ImeSettingsCodec.TrailingSeparatorExample | src/com/android/settings/inputmethod/InputMethodAndSubtypeUtil.java:145-148 | `ime1:` splits into the single token `ime1` and reads as the disabled set `{ime1}` |
| ImeSettingsCodec.TrailingSubtypeSeparatorExample | src/com/android/settings/inputmethod/InputMethodAndSubtypeUtil.java:121-133 | `ime1;` is the id `ime1` with no subtype hash, and reads as the map `{ime1: {}}` |
| ImeSettingsCodec.GetEnabledInputMethodsAndSubtypeList | src/com/android/settings/inputmethod/InputMethodAndSubtypeUtil.java:109-136 | the two nested splitter loops build exactly `ParseEnabled` of the stored string |
| ImeSettingsCodec.GetDisabledSystemIMEs | src/com/android/settings/inputmethod/InputMethodAndSubtypeUtil.java:138-150 | the splitter loop builds exactly `ParseDisabled` of the stored string |
| ImeSettingsCodec.EntryString | src/com/android/settings/inputmethod/InputMethodAndSubtypeUtil.java:55-63 | defines one written entry, the id then `;hash` per subtype; `EntryStringTokens` and `AddEntryOfEntryString` state that it reads back as the id and its set |
| ImeSettingsCodec.EnabledString | src/com/android/settings/inputmethod/InputMethodAndSubtypeUtil.java:65-76 | defines the written map, the entries joined by `:`; `EnabledRoundTrip` and `EnabledStringShape` state what it reads back as and its shape |
| ImeSettingsCodec.EnabledStringAppend | src/com/android/settings/inputmethod/InputMethodAndSubtypeUtil.java:69-74 | each further entry is written after a `:`, and the first one without it |
| ImeSettingsCodec.EntryStringAppend | src/com/android/settings/inputmethod/InputMethodAndSubtypeUtil.java:60-62 | each subtype is written as `;` followed by its hash |
| ImeSettingsCodec.BuildEnabledInputMethodsString | src/com/android/settings/inputmethod/InputMethodAndSubtypeUtil.java:55-63 | appends the id and then `;hash` for each subtype, in an order that lists every subtype of the set exactly once |
| ImeSettingsCodec.BuildInputMethodsAndSubtypesString | src/com/android/settings/inputmethod/InputMethodAndSubtypeUtil.java:65-76 | appends the entries joined by `:`, in an order that lists every key exactly once, each with an enumeration of its own set |
| ImeSettingsCodec.BuildDisabledSystemInputMethods | src/com/android/settings/inputmethod/InputMethodAndSubtypeUtil.java:78-89 | appends the ids joined by `:`, in an order that lists every id of the set exactly once |
| ImeSettingsCodec.EntryStringTokens | src/com/android/settings/inputmethod/InputMethodAndSubtypeUtil.java:124-132 | a written entry splits back into its id and hashes, has no `:`, and parses to the id and the hash set |
| ImeSettingsCodec.AddEntryOfEntryString | src/com/android/settings/inputmethod/InputMethodAndSubtypeUtil.java:124-132 | reading a written entry sets its id to exactly its original subtype set |
| ImeSettingsCodec.ParseEntryStringsPrefix | src/com/android/settings/inputmethod/InputMethodAndSubtypeUtil.java:121-134 | parsing the first n written entries gives the original map restricted to their ids |
| ImeSettingsCodec.ParseEntryStrings | src/com/android/settings/inputmethod/InputMethodAndSubtypeUtil.java:121-134 | parsing all the written entries gives the original map restricted to the written ids |
| ImeSettingsCodec.SplitEnabledString | src/com/android/settings/inputmethod/InputMethodAndSubtypeUtil.java:121-123 | a non-empty map is written as a non-empty string whose `:`-tokens are exactly the written entries |
| ImeSettingsCodec.EnabledRoundTrip | src/com/android/settings/inputmethod/InputMethodAndSubtypeUtil.java:55-76 | parsing what the serialiser wrote for a map of separator-free, non-empty ids and hashes gives back that map, for every iteration order |
| ImeSettingsCodec.DisabledRoundTrip | src/com/android/settings/inputmethod/InputMethodAndSubtypeUtil.java:78-89 | parsing what the serialiser wrote for a set of separator-free, non-empty ids gives back that set, for every iteration order |
| ImeSettingsCodec.EnabledStringShape | src/com/android/settings/inputmethod/InputMethodAndSubtypeUtil.java:55-76 | the written string is empty exactly for the empty map; otherwise `:` neither leads nor trails, its `:`-tokens are the entries, and each entry is its id followed by its hashes |
| ImeSettingsCodec.EnabledStringEnds | src/com/android/settings/inputmethod/InputMethodAndSubtypeUtil.java:67-75 | a non-empty written string neither starts nor ends with `:` |
| ImeSettingsCodec.EntryStringsTokens | src/com/android/settings/inputmethod/InputMethodAndSubtypeUtil.java:55-63 | every written entry is free of `:`, non-empty, and splits on `;` into its id and hashes |
| ImeSettingsCodec.DisabledStringEmpty | src/com/android/settings/inputmethod/InputMethodAndSubtypeUtil.java:78-89 | the disabled string is empty exactly when the set is empty |
| InputMethodAndSubtypeUtil.GetInputMethodSubtypeSelected | src/com/android/settings/inputmethod/InputMethodAndSubtypeUtil.java:91-98 | defines `getInputMethodSubtypeSelected`: the stored value, or -1 when the setting is missing; `SaveInputMethodSubtypeList` reads the selected subtype of the pass through it |
| InputMethodAndSubtypeUtil.IsInputMethodSubtypeSelected | src/com/android/settings/inputmethod/InputMethodAndSubtypeUtil.java:100-102 | defines `isInputMethodSubtypeSelected`: a stored value other than -1; outcome (4) of `SaveInputMethodSubtypeList` is stated with it |
| InputMethodAndSubtypeUtil.ScanSubtype | src/com/android/settings/inputmethod/InputMethodAndSubtypeUtil.java:186-211 | defines one subtype step: no preference skips it, the first preference clears the set and raises the reset flag, a checked one adds its hash string (lowering the flag for the selected subtype of the current input method), an unchecked one removes it |
| InputMethodAndSubtypeUtil.ScanSubtypes | src/com/android/settings/inputmethod/InputMethodAndSubtypeUtil.java:183-212 | defines the subtype loop, first subtype to last; its outcomes are `ScanWithoutPrefs` and `ScanRebuilds` |
| InputMethodAndSubtypeUtil.ScanWithoutPrefs | src/com/android/settings/inputmethod/InputMethodAndSubtypeUtil.java:190-191 | without any subtype preference the subtype scan changes neither the set nor the flags |
| InputMethodAndSubtypeUtil.ScanRebuilds | src/com/android/settings/inputmethod/InputMethodAndSubtypeUtil.java:183-212 | with a subtype preference, the rebuilt set is exactly the checked subtypes' hashes whatever it held before; the reset flag ends up raised unless this is the current input method and its selected subtype is checked |
| InputMethodAndSubtypeUtil.CheckedHashesAreTokens | src/com/android/settings/inputmethod/InputMethodAndSubtypeUtil.java:187-201 | every hash string a rebuild writes is non-empty and free of `:` and `;`, so it is a hash the enabled format can carry |
| InputMethodAndSubtypeUtil.ScanSubtypePreferences | src/com/android/settings/inputmethod/InputMethodAndSubtypeUtil.java:183-212 | the subtype loop computes the set and the reset flag that the specification scan does |
| InputMethodAndSubtypeUtil.IsImeChecked | src/com/android/settings/inputmethod/InputMethodAndSubtypeUtil.java:169-171 | defines `isImeChecked`: a two-state preference's checked state, otherwise whether the id is a key of the map |
| InputMethodAndSubtypeUtil.StaysEnabled | src/com/android/settings/inputmethod/InputMethodAndSubtypeUtil.java:174-176 | defines the enable condition: checked, or always checked without a hard keyboard |
| InputMethodAndSubtypeUtil.EnableStep | src/com/android/settings/inputmethod/InputMethodAndSubtypeUtil.java:174-225 | defines the enable-or-disable half of an iteration; `StepEnables`, `StepRebuildsSubtypes` and `StepDisables` state its outcomes |
| InputMethodAndSubtypeUtil.TrackDisabledSystem | src/com/android/settings/inputmethod/InputMethodAndSubtypeUtil.java:226-238 | defines the disabled-set half of an iteration; `StepTracksDisabledSystem` states its outcome |
| InputMethodAndSubtypeUtil.ImeStep | src/com/android/settings/inputmethod/InputMethodAndSubtypeUtil.java:164-238 | defines one iteration: nothing without a preference, else both halves with the checked state read before the map changes; the `Step*` lemmas state its outcomes |
| InputMethodAndSubtypeUtil.Pass | src/com/android/settings/inputmethod/InputMethodAndSubtypeUtil.java:163-239 | defines the loop over the installed input methods in list order; `SaveInputMethodSubtypeList`, `PassLeavesUnlistedIds` and `PassWithoutSubtypePrefsKeepsReset` are stated with it |
| InputMethodAndSubtypeUtil.WritesDisabled | src/com/android/settings/inputmethod/InputMethodAndSubtypeUtil.java:243-269 | defines the disabled write: the serialised set when non-empty, otherwise the stored value unchanged; `DisabledWriteAsymmetry` states what it reads back as |
| InputMethodAndSubtypeUtil.SaveInputMethod | src/com/android/settings/inputmethod/InputMethodAndSubtypeUtil.java:164-238 | one loop iteration updates the map, the disabled set, the current id and the reset flag exactly as `ImeStep` |
| InputMethodAndSubtypeUtil.UpdateDisabledSystemIMEs | src/com/android/settings/inputmethod/InputMethodAndSubtypeUtil.java:228-238 | the disabled-set update of one iteration |
| InputMethodAndSubtypeUtil.SaveInputMethodSubtypeList | src/com/android/settings/inputmethod/InputMethodAndSubtypeUtil.java:152-274 | the whole pass has five outcomes: (1) the enabled string is always written, as a serialisation of the reconciled map; (2) the disabled string is written only when non-empty; (3) the default becomes the reconciled current id, or "" if that was cleared; (4) the selected subtype becomes -1 exactly when the reset flag is set or none was selected; (5) otherwise the selected subtype is unchanged |
| InputMethodAndSubtypeUtil.StepSkipsWithoutPreference | src/com/android/settings/inputmethod/InputMethodAndSubtypeUtil.java:165-166 | an input method without a preference changes nothing |
| InputMethodAndSubtypeUtil.StepEnables | src/com/android/settings/inputmethod/InputMethodAndSubtypeUtil.java:174-181 | a checked (or always-checked, no hard keyboard) input method is a key afterwards; other keys and the current id are unchanged; without subtype preferences its set is kept (empty when newly enabled) and so is the reset flag |
| InputMethodAndSubtypeUtil.StepRebuildsSubtypes | src/com/android/settings/inputmethod/InputMethodAndSubtypeUtil.java:183-212 | with a subtype preference, the final set is exactly the checked subtypes' hashes (stale hashes dropped); the reset flag ends up raised unless the current input method's selected subtype is checked |
| InputMethodAndSubtypeUtil.StepDisables | src/com/android/settings/inputmethod/InputMethodAndSubtypeUtil.java:213-225 | an unchecked input method loses its key and other keys are unchanged; the current id is cleared exactly when it was this input method |
| InputMethodAndSubtypeUtil.StepTracksDisabledSystem | src/com/android/settings/inputmethod/InputMethodAndSubtypeUtil.java:226-238 | with a hard keyboard, a system input method ends up disabled exactly when it is not checked; otherwise its membership is unchanged; no other id's membership changes |
| InputMethodAndSubtypeUtil.PassLeavesUnlistedIds | src/com/android/settings/inputmethod/InputMethodAndSubtypeUtil.java:163-239 | an id no installed input method carries keeps its map entry and its disabled-set membership through the pass |
| InputMethodAndSubtypeUtil.PassWithoutSubtypePrefsKeepsReset | src/com/android/settings/inputmethod/InputMethodAndSubtypeUtil.java:192-199 | the reset flag is only raised by a subtype preference, so without one it never changes |
| InputMethodAndSubtypeUtil.DisabledWriteAsymmetry | src/com/android/settings/inputmethod/InputMethodAndSubtypeUtil.java:264-269 | an empty disabled set leaves the stored value as it was; a non-empty one is stored so that it reads back as the same set |
| InputMethodAndSubtypeUtil.UpdateSubtypesPreferenceChecked | src/com/android/settings/inputmethod/InputMethodAndSubtypeUtil.java:319-345 | every shown subtype box of an enabled, listed input method is checked exactly when its hash string is in that input method's set; every other box is unchanged |
| InputMethodAndSubtypeUtil.LoadInputMethodSubtypeList | src/com/android/settings/inputmethod/InputMethodAndSubtypeUtil.java:276-298 | every two-state box of a listed input method is checked exactly when its id is a key of the parsed map; other boxes are unchanged; subtype boxes are as for `UpdateSubtypesPreferenceChecked` |
| InputMethodAndSubtypeUtil.SaveAfterLoadKeepsSubtypes | src/com/android/settings/inputmethod/InputMethodAndSubtypeUtil.java:183-212 | saving right after loading, with no box touched, keeps an enabled input method enabled and keeps each shown subtype's membership; it can only drop hashes that no shown subtype has |
| InputMethodAndSubtypeUtil.RemoveUnnecessaryNonPersistentPreference | src/com/android/settings/inputmethod/InputMethodAndSubtypeUtil.java:347-356 | a non-persistent preference with a key has that key removed from its shared preferences; any other key is untouched; a persistent or key-less preference changes nothing |
| InputMethodAndSubtypeUtil.RemoveNonPersistentIdempotent | src/com/android/settings/inputmethod/InputMethodAndSubtypeUtil.java:347-356 | removing a second time changes nothing |
| SimSettings.SlotIndexFrom | src/com/android/settings/sim/SimSettings.java:190-196 | the first index at or after the start whose record sits in the slot, or none |
| SimSettings.FirstOnSlot | src/com/android/settings/sim/SimSettings.java:186-200 | the first record in list order that sits in the slot; nothing when the list is missing or has no such record |
| SimSettings.SubIdIndexFrom | src/com/android/settings/sim/SimSettings.java:172-177 | the first non-empty index at or after the start whose record has the subscription id, or none |
| SimSettings.FirstWithSubId | src/com/android/settings/sim/SimSettings.java:169-180 | skips empty slots and returns the first record with the subscription id; nothing when none has it |
| SimSettings.SimSettings.FindRecordBySlotId | src/com/android/settings/sim/SimSettings.java:186-200 | the early-return loop returns `FirstOnSlot` of the activated list |
| SimSettings.SimSettings.FindRecordBySubId | src/com/android/settings/sim/SimSettings.java:169-180 | the early-return loop returns `FirstWithSubId` of the available records |
| SimSettings.SimSettings.CreatePreferences | src/com/android/settings/sim/SimSettings.java:125-131 | the available records have exactly one entry per slot, entry i being the slot search for i; the activated list is unchanged |
| SimSettings.AvailableRecords | src/com/android/settings/sim/SimSettings.java:125-131 | defines the per-slot list, entry i being the slot search for i; `AvailableRecordsSlots` states what each entry holds |
| SimSettings.AvailableRecordsSlots | src/com/android/settings/sim/SimSettings.java:125-131 | each available entry holds an activated record of its own slot, and is empty exactly when no activated record sits in that slot |
| SimSettings.SimSettings.CreateDropDown | src/com/android/settings/sim/SimSettings.java:242-260 | the drop-down's items become the "ask first" item (calls and SMS only) followed by one item per non-empty slot; the highlighted index is unchanged |
| SimSettings.RecordItems | src/com/android/settings/sim/SimSettings.java:254-260 | defines one item per non-empty slot, in slot order; `RecordItemsLayout` and `RecordItemsAtPresentSlots` state its layout |
| SimSettings.DropDownItems | src/com/android/settings/sim/SimSettings.java:245-260 | defines the items of a drop-down: the "ask first" item for calls and SMS, then the record items; `DropDownLayout` states its layout |
| SimSettings.PresentSlotsOrdered | src/com/android/settings/sim/SimSettings.java:254-260 | the slots that get an item are in range, occupied and increasing, and every occupied slot gets one |
| SimSettings.RecordItemsAtPresentSlots | src/com/android/settings/sim/SimSettings.java:254-260 | record item k is the k-th non-empty slot's record, labelled with its display name |
| SimSettings.RecordItemsLayout | src/com/android/settings/sim/SimSettings.java:254-260 | the record items list exactly the non-empty slots' records, in slot order |
| SimSettings.DropDownLayout | src/com/android/settings/sim/SimSettings.java:245-260 | calls and SMS start with an "ask first" item with no record and cellular data does not; every later item holds a record and shows its display name |
| SimSettings.OnItemSelected | src/com/android/settings/sim/SimSettings.java:264-274 | defines the drop-down callback: the "ask first" item stands for subscription 0, data and calls reach their own setter, SMS reaches none; `SelectThenHighlight` states that the stored id leads back to the picked item |
| SimSettings.SelectedIndexAsWritten | src/com/android/settings/sim/SimSettings.java:202-224 | defines the index the source highlights, the slot plus one for calls and SMS; `AsWrittenSelectsWrongItem` shows it picking the wrong item |
| SimSettings.ItemIndexFrom | src/com/android/settings/sim/SimSettings.java:202-224 | the first index at or after the start of an item holding the record, or none |
| SimSettings.SelectedIndex | src/com/android/settings/sim/SimSettings.java:202-224 | the index of the first item holding the record, and none exactly when no item holds it |
| SimSettings.SimSettings.UpdateSelectedItem | src/com/android/settings/sim/SimSettings.java:202-224 | highlights the first item holding the default subscription's record; changes nothing when no record has that id |
| SimSettings.AsWrittenSelectsWrongItem | src/com/android/settings/sim/SimSettings.java:210-224 | with slot 0 empty, the slot-based index for the slot-1 SIM highlights the slot-2 SIM in the data and calls drop-downs; the corrected index highlights the slot-1 SIM |
| SimSettings.RecordItemsOfFullSlots | src/com/android/settings/sim/SimSettings.java:254-260 | with every slot occupied, item k holds slot k's record |
| SimSettings.AsWrittenAgreesWhenSlotsFull | src/com/android/settings/sim/SimSettings.java:202-224 | when every slot holds a record of its own slot, the slot-based index and the corrected index agree |
| SimSettings.CallsSelectionExample | src/com/android/settings/sim/SimSettings.java:218-224 | with SIMs in slots 0 and 1, the calls drop-down highlights the slot-1 SIM at index 2 |
| SimSettings.FindDistinctSubId | src/com/android/settings/sim/SimSettings.java:169-180 | with distinct subscription ids, searching for a record's id finds that record |
| SimSettings.ItemSlot | src/com/android/settings/sim/SimSettings.java:254-260 | a record item comes from a slot, and every earlier record item comes from an earlier slot |
| SimSettings.HighlightDistinct | src/com/android/settings/sim/SimSettings.java:202-224 | with distinct subscription ids, highlighting a record item's record selects that item |
| SimSettings.SelectThenHighlight | src/com/android/settings/sim/SimSettings.java:202-274 | with distinct subscription ids, picking a record item stores its subscription id, the search finds that record again, and the highlight returns to the picked item |
| SimSettings.SimSettings.constructor | src/com/android/settings/sim/SimSettings.java:106-111 | the fragment holds the activated records and no available records yet |
| UserSettings.AddRequestResponse | src/com/android/settings/users/UserSettings.java:378-395 | defines the response of `onAddUserClicked`: nothing unless idle, the add dialog for a user, and for a restricted profile the add or the screen-lock request; `OnAddUserClicked` is stated with it and keeps `AtMostOnePending` |
| UserSettings.UserSettings.OnAddUserClicked | src/com/android/settings/users/UserSettings.java:378-395 | responds as `AddRequestResponse`; the add flag rises only when an add starts; the pending removal and icons are unchanged; at most one operation stays pending |
| UserSettings.UserSettings.AddUserNow | src/com/android/settings/users/UserSettings.java:676-679 | starting an add sets the add flag and changes nothing else |
| UserSettings.AddCompletionMessages | src/com/android/settings/users/UserSettings.java:689-699 | defines what the add thread posts: a list update and the set-up message for a user, the configuration message for a restricted profile; `FinishAddUser` is stated with it |
| UserSettings.UserSettings.FinishAddUser | src/com/android/settings/users/UserSettings.java:689-699 | the add flag drops, the messages are `AddCompletionMessages`, and nothing else changes |
| UserSettings.UserSettings.OnRemoveUserClicked | src/com/android/settings/users/UserSettings.java:397-404 | the user id is recorded, and confirmation asked, exactly when idle; otherwise the state is unchanged |
| UserSettings.UserSettings.OnDismiss | src/com/android/settings/users/UserSettings.java:972-979 | returns to idle and keeps the icon cache |
| UserSettings.UserSettings.OnReceive | src/com/android/settings/users/UserSettings.java:180-193 | a removal broadcast clears the pending removal; an info-change broadcast with a handle other than -1 evicts only that user's icon; the list is always refreshed |
| UserSettings.UserSettings.constructor | src/com/android/settings/users/UserSettings.java:142-151 | a new screen is idle with an empty icon cache |
| UserSettings.InitializedFlagDecides | src/com/android/settings/users/UserSettings.java:943-945 | setting the FLAG_INITIALIZED bit makes a user initialized; clearing it makes the user not initialized |
| UserSettings.InitializedIgnoresOtherFlags | src/com/android/settings/users/UserSettings.java:943-945 | no other flag bit changes whether a user is initialized |
| UserSettings.IsInitialized | src/com/android/settings/users/UserSettings.java:943-945 | defines `isInitialized` as the FLAG_INITIALIZED bit of the user's flags; `InitializedFlagDecides` and `InitializedIgnoresOtherFlags` state it |
| UserSettings.ShowSettings | src/com/android/settings/users/UserSettings.java:737-751 | defines the settings button: never on the viewer's own row, otherwise for the owner with telephony or on a restricted profile; `RowButtons` states how it combines with delete |
| UserSettings.ShowDelete | src/com/android/settings/users/UserSettings.java:737-753 | defines the delete button: never on the viewer's own row, otherwise for the owner without telephony on a secondary user; `RowButtons` states how it combines with settings |
| UserSettings.RowButtons | src/com/android/settings/users/UserSettings.java:737-753 | no row gets both buttons and the viewer's own row gets neither; for the owner, every other non-guest row gets exactly one (settings with telephony; without it, settings for a restricted profile and delete for a secondary user); other users get neither |
| UserSettings.SummaryChoice | src/com/android/settings/users/UserSettings.java:760-781 | a row says "not set up" exactly when the user is not initialized; the restricted wording wins over the managed one; the owner label survives exactly on the row of an initialized owner that is neither restricted nor managed, whoever views it; otherwise an initialized plain user's row has no summary |
| UserSettings.UserSummary | src/com/android/settings/users/UserSettings.java:737-781 | defines the summary a row ends with, starting from the owner label on the owner's row; `SummaryChoice` states its outcomes |
| UserSettings.JavaRemainder | src/com/android/settings/users/UserSettings.java:417 | Java's `%` by a positive divisor: in [0, b) for a non-negative dividend, and in (-b, 0] for a negative one |
| UserSettings.AvatarIndex | src/com/android/settings/users/UserSettings.java:417 | defines the default avatar index `userId % USER_DRAWABLES.length` with Java's `%`; `AvatarIndexInBounds` states its range |
| UserSettings.AvatarIndexInBounds | src/com/android/settings/users/UserSettings.java:122-131 | a non-negative user id picks one of the eight avatars, and ids eight apart pick the same one; a negative id that is not a multiple of eight would index below the array |
| UserSettings.MoreUsers | src/com/android/settings/users/UserSettings.java:817-818 | defines `moreUsers`, the comparison of the user count with the maximum |

## Left out

- Settings provider reads and writes are parameters and results (`SecureSettings`).
  Preferences are maps, not objects. Platform services are inputs or returned writes: the
  subscription, telephony, user, account and device-policy managers.
- `isSystemIme` and `isAlwaysCheckedIme` are uninterpreted functions of the input-method
  record.
- `TextUtils.SimpleStringSplitter` is not part of this model. `Split` states its token
  stream as the splitter's `hasNext`/`next` produce it (no empty final token). The parsers
  `ParseEnabled`, `ParseDisabled`, `GetEnabledInputMethodsAndSubtypeList` and
  `GetDisabledSystemIMEs` rest on that statement.
- Hash-map and hash-set iteration order is left open. The serialisers may pick keys in any
  order, and the contracts hold for every order.
- The subtype preference key `imiId + hash` is a lookup on the pair (id, hash). Two
  different pairs whose concatenations coincide are not modelled.
- `setSubtypesPreferenceEnabled` and the child-preference enabling in
  `loadInputMethodSubtypeList` are left out. They only grey out check boxes and do not
  change any checked state.
- The `DEBUG` logging is left out: the flag is a false constant.
- `SaveInputMethod` and `UpdateDisabledSystemIMEs`: the source keeps the loop body of
  `saveInputMethodSubtypeList` inside the loop. The model calls it as a method on the
  current variables.
- `SaveInputMethod`: the source mutates the HashSet that is already in the map, in place.
  The model computes the new set and stores it back under the id. Nothing else shares that
  set, so the state afterwards is the same.
- Dialogs, menus, resource strings, bitmaps, icon loading, `encircle` and navigation are
  left out. The "ask first" label is a constant title.
- `SimPreference` and its edit dialog, `setActivity`, `updateSimSlotValues`,
  `showSimCardScreen` and the option menu of the SIM screen are left out.
- `SimSettings.SimSettings.UpdateSelectedItem` models the three `update*Values` methods in
  one. The subscription service's default id is its parameter.
- `SimSettings.OnItemSelected`: the SMS setter is commented out in the source, so an SMS
  selection writes nothing. The `updateAllOptions` refresh after a selection is not
  modelled.
- `UserSettings.UserSummary`: the viewer's own row is one object that every refresh of the
  list reuses, so a summary an earlier refresh set stays when no branch overrides it. The
  model starts each row from the summary it had when it was created.
- `DropDownPreference` stands in for the platform's drop-down preference, which the screen
  inflates from its XML. Its constructor models no source line; it only gives a fresh
  drop-down with no items.
- The user-list construction in `updateUserList` is left out: preference objects, guest
  skipping, the temporary "adding" row and the guest-defaults row. Only its per-user rules
  are modelled.
- `UserSettings.UserSettings.FinishAddUser` takes the new user's id as a parameter. User
  creation itself (`createTrustedUser`, `createLimitedUser`) and a failed creation returning
  null are left out.
- Threads, `AsyncTask`, `synchronized (mUserLock)`, handler dispatch and receiver
  registration are left out. The guard's events run one at a time.
- `UserSettings.InitializedFlagDecides` uses the value 0x10 for `UserInfo.FLAG_INITIALIZED`.
  `UserInfo` is not part of this model.
- The add-user dialog texts and the "long message displayed" preference are left out.
- Saving and restoring the guard fields with the fragment's instance state are left out.
- Filling the icon cache (the own photo and icons loaded in the background) is left out.
  Only eviction is modelled.

## Findings

| source | as written | input that shows it | evidently intended | confidence | as-written member | corrected member |
|---|---|---|---|---|---|---|
| src/com/android/settings/sim/SimSettings.java:202-224 | the highlighted item index is the record's slot id (plus 1 for calls and SMS) | slot 0 empty, SIMs in slots 1 and 2, default is the slot-1 SIM: the drop-downs list only non-empty slots, so index 1 (data) and index 2 (calls) show the slot-2 SIM | highlight the item that holds the default subscription's record | not executed | SimSettings.AsWrittenSelectsWrongItem | SimSettings.SimSettings.UpdateSelectedItem |
