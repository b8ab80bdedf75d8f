/**
  The reconcile pass that saves the state of the input-method screens into the persisted
  settings (`saveInputMethodSubtypeList`), the inverse pass that sets check boxes from the
  persisted map (`loadInputMethodSubtypeList`, `updateSubtypesPreferenceChecked`), and the
  small helpers beside them.

  The four persisted settings are an explicit `SecureSettings` value, read at the start and
  returned at the end. The preference screen is two lookup maps: input-method id to its
  preference (absent, a plain preference, or a two-state one with its checked state) and
  (id, subtype hash) to the checked state of the subtype's two-state preference.
 */
module InputMethodAndSubtypeUtil {
  import opened Strings
  import opened ImeSettingsCodec

  /** The value of SELECTED_INPUT_METHOD_SUBTYPE that means "no subtype". */
  const NotASubtypeId: int := -1

  /** An installed input method: its id and its subtypes' hash codes in order. */
  datatype InputMethodInfo = InputMethodInfo(id: string, subtypeHashes: seq<int>)

  /**
    The platform's `InputMethodUtils.isSystemIme` and
    `InputMethodSettingValuesWrapper.isAlwaysCheckedIme`, left uninterpreted.
   */
  datatype ImePolicy = ImePolicy(
    isSystemIme: InputMethodInfo -> bool,
    isAlwaysCheckedIme: InputMethodInfo -> bool)

  /** What `findPreference(imiId)` finds when it finds something. */
  datatype ImePreference = PlainPreference | TwoState(checked: bool)

  datatype PreferenceScreen = PreferenceScreen(
    imePrefs: map<string, ImePreference>,
    subtypePrefs: map<(string, int), bool>)

  /** ENABLED_INPUT_METHODS, DISABLED_SYSTEM_INPUT_METHODS, DEFAULT_INPUT_METHOD, SELECTED_INPUT_METHOD_SUBTYPE. */
  datatype SecureSettings = SecureSettings(
    enabledInputMethods: Option<string>,
    disabledSystemInputMethods: Option<string>,
    defaultInputMethod: Option<string>,
    selectedInputMethodSubtype: Option<int>)

  // ---------------------------------------------------------------------------
  // The selected subtype
  // ---------------------------------------------------------------------------

  /** `getInputMethodSubtypeSelected`: the stored value, or -1 when the setting is missing. */
  function GetInputMethodSubtypeSelected(stored: Option<int>): int
  {
    match stored
    case None => NotASubtypeId
    case Some(v) => v
  }

  /** `isInputMethodSubtypeSelected`: a missing setting and an explicit -1 both mean "none". */
  function IsInputMethodSubtypeSelected(stored: Option<int>): bool
  {
    GetInputMethodSubtypeSelected(stored) != NotASubtypeId
  }

  // ---------------------------------------------------------------------------
  // One input method's subtypes
  // ---------------------------------------------------------------------------

  /** What stays fixed while the subtypes of one input method are scanned. */
  datatype ScanContext = ScanContext(
    imiId: string,
    isCurrentInputMethod: bool,
    selectedSubtype: int,
    subtypePrefs: map<(string, int), bool>)

  /** The subtype set being rebuilt, whether a subtype preference was seen, and the reset flag. */
  datatype SubtypeScan = SubtypeScan(subtypes: set<string>, prefFound: bool, needsReset: bool)

  /** One subtype: the first subtype preference clears the set and raises the reset flag. */
  function ScanSubtype(acc: SubtypeScan, hash: int, ctx: ScanContext): SubtypeScan
  {
    if (ctx.imiId, hash) !in ctx.subtypePrefs then acc
    else
      var cleared := if acc.prefFound then acc else SubtypeScan({}, true, true);
      var hashStr := IntToString(hash);
      if ctx.subtypePrefs[(ctx.imiId, hash)] then
        var keep := ctx.isCurrentInputMethod && ctx.selectedSubtype == hash;
        SubtypeScan(cleared.subtypes + {hashStr}, true, if keep then false else cleared.needsReset)
      else
        SubtypeScan(cleared.subtypes - {hashStr}, true, cleared.needsReset)
  }

  /** The subtypes of `hashes`, scanned from first to last. */
  function ScanSubtypes(hashes: seq<int>, acc: SubtypeScan, ctx: ScanContext): SubtypeScan
    decreases |hashes|
  {
    if |hashes| == 0 then acc
    else ScanSubtype(ScanSubtypes(hashes[..|hashes| - 1], acc, ctx), hashes[|hashes| - 1], ctx)
  }

  ghost predicate HasSubtypePref(hashes: seq<int>, ctx: ScanContext)
  {
    exists h :: h in hashes && (ctx.imiId, h) in ctx.subtypePrefs
  }

  /** The string forms of the hashes in `hashes` whose subtype preference is checked. */
  ghost function CheckedHashes(hashes: seq<int>, ctx: ScanContext): set<string>
  {
    set h | h in hashes && (ctx.imiId, h) in ctx.subtypePrefs && ctx.subtypePrefs[(ctx.imiId, h)]
      :: IntToString(h)
  }

  /** The selected subtype is among `hashes` and its preference is checked. */
  ghost predicate SelectedSubtypeChecked(hashes: seq<int>, ctx: ScanContext)
  {
    && ctx.selectedSubtype in hashes
    && (ctx.imiId, ctx.selectedSubtype) in ctx.subtypePrefs
    && ctx.subtypePrefs[(ctx.imiId, ctx.selectedSubtype)]
  }

  /** Without any subtype preference the scan changes nothing. */
  lemma {:induction false} ScanWithoutPrefs(hashes: seq<int>, acc: SubtypeScan, ctx: ScanContext)
    requires !HasSubtypePref(hashes, ctx)
    ensures ScanSubtypes(hashes, acc, ctx) == acc
    decreases |hashes|
  {
    if |hashes| > 0 {
      var prefix := hashes[..|hashes| - 1];
      assert !HasSubtypePref(prefix, ctx) by {
        forall h | h in prefix ensures h in hashes {
        }
      }
      assert hashes[|hashes| - 1] in hashes;
      ScanWithoutPrefs(prefix, acc, ctx);
    }
  }

  /**
    With at least one subtype preference, the rebuilt set is exactly the checked subtypes'
    hashes (whatever it held before), and the reset flag is raised unless the selected
    subtype of the current input method is among the checked ones.
   */
  lemma {:induction false} ScanRebuilds(hashes: seq<int>, acc: SubtypeScan, ctx: ScanContext)
    requires !acc.prefFound
    requires HasSubtypePref(hashes, ctx)
    ensures ScanSubtypes(hashes, acc, ctx).prefFound
    ensures ScanSubtypes(hashes, acc, ctx).subtypes == CheckedHashes(hashes, ctx)
    ensures ScanSubtypes(hashes, acc, ctx).needsReset
      == !(ctx.isCurrentInputMethod && SelectedSubtypeChecked(hashes, ctx))
    decreases |hashes|
  {
    var n := |hashes|;
    var prefix := hashes[..n - 1];
    var h := hashes[n - 1];
    assert hashes == prefix + [h];
    assert forall x :: x in hashes <==> x in prefix || x == h;
    var key := (ctx.imiId, h);
    if HasSubtypePref(prefix, ctx) {
      ScanRebuilds(prefix, acc, ctx);
      if key in ctx.subtypePrefs && !ctx.subtypePrefs[key] {
        assert IntToString(h) !in CheckedHashes(prefix, ctx) by {
          forall h' | h' in prefix && (ctx.imiId, h') in ctx.subtypePrefs && ctx.subtypePrefs[(ctx.imiId, h')]
            ensures IntToString(h') != IntToString(h)
          {
            if IntToString(h') == IntToString(h) {
              IntToStringInjective(h', h);
            }
          }
        }
      }
    } else {
      ScanWithoutPrefs(prefix, acc, ctx);
      assert CheckedHashes(prefix, ctx) == {};
      assert !SelectedSubtypeChecked(prefix, ctx);
    }
  }

  /**
    The hashes a rebuild writes are strings the enabled format can carry: neither separator
    occurs in a decimal rendering, so `EnabledRoundTrip`'s condition on hashes holds for them.
   */
  lemma CheckedHashesAreTokens(hashes: seq<int>, ctx: ScanContext)
    ensures forall s :: s in CheckedHashes(hashes, ctx) ==> IsToken(s)
  {
    forall s | s in CheckedHashes(hashes, ctx) ensures IsToken(s) {
      var h :| h in hashes && (ctx.imiId, h) in ctx.subtypePrefs && ctx.subtypePrefs[(ctx.imiId, h)]
        && s == IntToString(h);
      IntToStringAvoids(h, InputMethodSeparator);
      IntToStringAvoids(h, InputMethodSubtypeSeparator);
    }
  }

  // ---------------------------------------------------------------------------
  // The reconcile pass
  // ---------------------------------------------------------------------------

  /** The variables the pass updates: the enabled map, the disabled-system set, the current id, the reset flag. */
  datatype PassState = PassState(
    enabled: EnabledMap,
    disabledSystem: set<string>,
    currentId: Option<string>,
    needsReset: bool)

  /** What stays fixed during the pass. */
  datatype PassEnv = PassEnv(
    screen: PreferenceScreen,
    policy: ImePolicy,
    hasHardKeyboard: bool,
    selectedSubtype: int)

  /** `isImeChecked`: a two-state preference's checked state, otherwise presence in the map. */
  function IsImeChecked(st: PassState, imi: InputMethodInfo, env: PassEnv): bool
    requires imi.id in env.screen.imePrefs
  {
    match env.screen.imePrefs[imi.id]
    case TwoState(checked) => checked
    case PlainPreference => imi.id in st.enabled
  }

  /** The input method ends up enabled: checked, or always checked with no hard keyboard. */
  predicate StaysEnabled(st: PassState, imi: InputMethodInfo, env: PassEnv)
    requires imi.id in env.screen.imePrefs
  {
    (!env.hasHardKeyboard && env.policy.isAlwaysCheckedIme(imi)) || IsImeChecked(st, imi, env)
  }

  function SubtypeContext(st: PassState, imi: InputMethodInfo, env: PassEnv): ScanContext
  {
    ScanContext(imi.id, st.currentId == Some(imi.id), env.selectedSubtype, env.screen.subtypePrefs)
  }

  /** The enable-or-disable half of one iteration, for an input method that has a preference. */
  function EnableStep(st: PassState, imi: InputMethodInfo, env: PassEnv): PassState
    requires imi.id in env.screen.imePrefs
  {
    if StaysEnabled(st, imi, env) then
      var subtypesSet := if imi.id in st.enabled then st.enabled[imi.id] else {};
      var scan := ScanSubtypes(imi.subtypeHashes, SubtypeScan(subtypesSet, false, st.needsReset),
                               SubtypeContext(st, imi, env));
      PassState(st.enabled[imi.id := scan.subtypes], st.disabledSystem, st.currentId, scan.needsReset)
    else
      PassState(st.enabled - {imi.id}, st.disabledSystem,
                if st.currentId == Some(imi.id) then None else st.currentId, st.needsReset)
  }

  /**
    The disabled-system half: with a hard keyboard, a system input method joins the set when
    unchecked and leaves it when checked.
   */
  function TrackDisabledSystem(d: set<string>, imi: InputMethodInfo, policy: ImePolicy, hasHardKeyboard: bool,
                               isImeChecked: bool): set<string>
  {
    if policy.isSystemIme(imi) && hasHardKeyboard then
      if imi.id in d then (if isImeChecked then d - {imi.id} else d)
      else (if !isImeChecked then d + {imi.id} else d)
    else d
  }

  /** One iteration of the pass over the installed input methods. */
  function ImeStep(st: PassState, imi: InputMethodInfo, env: PassEnv): PassState
  {
    if imi.id !in env.screen.imePrefs then st
    else
      EnableStep(st, imi, env).(disabledSystem :=
        TrackDisabledSystem(st.disabledSystem, imi, env.policy, env.hasHardKeyboard, IsImeChecked(st, imi, env)))
  }

  /** The pass over `infos`, from first to last. */
  function Pass(infos: seq<InputMethodInfo>, st: PassState, env: PassEnv): PassState
    decreases |infos|
  {
    if |infos| == 0 then st
    else ImeStep(Pass(infos[..|infos| - 1], st, env), infos[|infos| - 1], env)
  }

  /** The state the pass starts from, read from the persisted settings. */
  function InitialState(settings: SecureSettings): PassState
  {
    PassState(ParseEnabled(settings.enabledInputMethods),
              ParseDisabled(settings.disabledSystemInputMethods),
              settings.defaultInputMethod, false)
  }

  function Reconciled(screen: PreferenceScreen, policy: ImePolicy, settings: SecureSettings,
                      infos: seq<InputMethodInfo>, hasHardKeyboard: bool): PassState
  {
    var env := PassEnv(screen, policy, hasHardKeyboard,
                       GetInputMethodSubtypeSelected(settings.selectedInputMethodSubtype));
    Pass(infos, InitialState(settings), env)
  }

  /**
    The disabled-system string is written only when it is non-empty: `after` is the stored
    value once the set `ids` has been serialised in some iteration order.
   */
  ghost predicate WritesDisabled(before: Option<string>, after: Option<string>, ids: set<string>)
  {
    exists order: seq<string> :: Enumerates(order, ids) &&
      after == (if |Join(order, InputMethodSeparator)| > 0 then Some(Join(order, InputMethodSeparator)) else before)
  }

  /**
    The subtype loop of `saveInputMethodSubtypeList` for one enabled input method: the
    first subtype preference found clears the set and raises the reset flag.
   */
  method ScanSubtypePreferences(hashes: seq<int>, subtypes: set<string>, needsReset: bool, ctx: ScanContext)
    returns (subtypesSet: set<string>, needsToResetSelectedSubtype: bool)
    ensures var scan := ScanSubtypes(hashes, SubtypeScan(subtypes, false, needsReset), ctx);
      subtypesSet == scan.subtypes && needsToResetSelectedSubtype == scan.needsReset
  {
    subtypesSet := subtypes;
    needsToResetSelectedSubtype := needsReset;
    var subtypePrefFound := false;
    ghost var start := SubtypeScan(subtypes, false, needsReset);
    for i := 0 to |hashes|
      invariant SubtypeScan(subtypesSet, subtypePrefFound, needsToResetSelectedSubtype)
        == ScanSubtypes(hashes[..i], start, ctx)
    {
      var hash := hashes[i];
      var subtypeHashCodeStr := IntToString(hash);
      assert hashes[..i + 1][..i] == hashes[..i];
      if (ctx.imiId, hash) in ctx.subtypePrefs {
        if !subtypePrefFound {
          // The stored hashes may be stale: rebuild the set from the preferences.
          subtypesSet := {};
          needsToResetSelectedSubtype := true;
          subtypePrefFound := true;
        }
        if ctx.subtypePrefs[(ctx.imiId, hash)] {
          subtypesSet := subtypesSet + {subtypeHashCodeStr};
          if ctx.isCurrentInputMethod {
            if ctx.selectedSubtype == hash {
              // The selected subtype is still enabled.
              needsToResetSelectedSubtype := false;
            }
          }
        } else {
          subtypesSet := subtypesSet - {subtypeHashCodeStr};
        }
      }
    }
    assert hashes[..|hashes|] == hashes;
  }

  /** One iteration of the loop of `saveInputMethodSubtypeList`, for the input method `imi`. */
  method SaveInputMethod(imi: InputMethodInfo, screen: PreferenceScreen, policy: ImePolicy,
                         hasHardKeyboard: bool, selectedInputMethodSubtype: int,
                         enabled: EnabledMap, disabled: set<string>, currentId: Option<string>, needsReset: bool)
    returns (enabledIMEAndSubtypesMap: EnabledMap, disabledSystemIMEs: set<string>,
             currentInputMethodId: Option<string>, needsToResetSelectedSubtype: bool)
    ensures PassState(enabledIMEAndSubtypesMap, disabledSystemIMEs, currentInputMethodId, needsToResetSelectedSubtype)
      == ImeStep(PassState(enabled, disabled, currentId, needsReset), imi,
                 PassEnv(screen, policy, hasHardKeyboard, selectedInputMethodSubtype))
  {
    enabledIMEAndSubtypesMap, disabledSystemIMEs, currentInputMethodId, needsToResetSelectedSubtype :=
      enabled, disabled, currentId, needsReset;
    var imiId := imi.id;
    if imiId !in screen.imePrefs {
      return;
    }
    ghost var st := PassState(enabled, disabled, currentId, needsReset);
    ghost var env := PassEnv(screen, policy, hasHardKeyboard, selectedInputMethodSubtype);
    var pref := screen.imePrefs[imiId];
    var isImeChecked := if pref.TwoState? then pref.checked else imiId in enabledIMEAndSubtypesMap;
    assert isImeChecked == IsImeChecked(st, imi, env);
    var isCurrentInputMethod := currentInputMethodId == Some(imiId);
    if (!hasHardKeyboard && policy.isAlwaysCheckedIme(imi)) || isImeChecked {
      assert StaysEnabled(st, imi, env);
      ghost var prior := if imiId in enabled then enabled[imiId] else {};
      if imiId !in enabledIMEAndSubtypesMap {
        // The input method has just been enabled.
        enabledIMEAndSubtypesMap := enabledIMEAndSubtypesMap[imiId := {}];
      }
      assert enabledIMEAndSubtypesMap[imiId] == prior;
      var ctx := ScanContext(imiId, isCurrentInputMethod, selectedInputMethodSubtype, screen.subtypePrefs);
      assert ctx == SubtypeContext(st, imi, env);
      var subtypesSet;
      subtypesSet, needsToResetSelectedSubtype :=
        ScanSubtypePreferences(imi.subtypeHashes, enabledIMEAndSubtypesMap[imiId], needsToResetSelectedSubtype, ctx);
      enabledIMEAndSubtypesMap := enabledIMEAndSubtypesMap[imiId := subtypesSet];
      assert enabledIMEAndSubtypesMap == enabled[imiId := subtypesSet];
    } else {
      assert !StaysEnabled(st, imi, env);
      enabledIMEAndSubtypesMap := enabledIMEAndSubtypesMap - {imiId};
      if isCurrentInputMethod {
        // The current input method is no longer enabled (e.g. it was uninstalled).
        currentInputMethodId := None;
      }
    }
    assert PassState(enabledIMEAndSubtypesMap, disabledSystemIMEs, currentInputMethodId, needsToResetSelectedSubtype)
      == EnableStep(st, imi, env);
    disabledSystemIMEs := UpdateDisabledSystemIMEs(disabledSystemIMEs, imi, policy, hasHardKeyboard, isImeChecked);
  }

  /** The last step of the loop body: a system input method the user turned off stays off across package changes. */
  method UpdateDisabledSystemIMEs(disabled: set<string>, imi: InputMethodInfo, policy: ImePolicy,
                                  hasHardKeyboard: bool, isImeChecked: bool)
    returns (disabledSystemIMEs: set<string>)
    ensures disabledSystemIMEs == TrackDisabledSystem(disabled, imi, policy, hasHardKeyboard, isImeChecked)
  {
    disabledSystemIMEs := disabled;
    var imiId := imi.id;
    if policy.isSystemIme(imi) && hasHardKeyboard {
      if imiId in disabledSystemIMEs {
        if isImeChecked {
          disabledSystemIMEs := disabledSystemIMEs - {imiId};
        }
      } else {
        if !isImeChecked {
          disabledSystemIMEs := disabledSystemIMEs + {imiId};
        }
      }
    }
  }

  method SaveInputMethodSubtypeList(screen: PreferenceScreen, policy: ImePolicy, settings: SecureSettings,
                                    inputMethodInfos: seq<InputMethodInfo>, hasHardKeyboard: bool)
    returns (saved: SecureSettings)
    ensures var final := Reconciled(screen, policy, settings, inputMethodInfos, hasHardKeyboard);
      && saved.enabledInputMethods.Some?
      && SerialisesEnabled(saved.enabledInputMethods.value, final.enabled)
      && WritesDisabled(settings.disabledSystemInputMethods, saved.disabledSystemInputMethods, final.disabledSystem)
      && saved.defaultInputMethod == Some(if final.currentId.Some? then final.currentId.value else "")
      && saved.selectedInputMethodSubtype ==
        if final.needsReset || !IsInputMethodSubtypeSelected(settings.selectedInputMethodSubtype)
        then Some(NotASubtypeId) else settings.selectedInputMethodSubtype
  {
    var currentInputMethodId := settings.defaultInputMethod;
    var selectedInputMethodSubtype := GetInputMethodSubtypeSelected(settings.selectedInputMethodSubtype);
    var enabledIMEAndSubtypesMap := GetEnabledInputMethodsAndSubtypeList(settings.enabledInputMethods);
    var disabledSystemIMEs := GetDisabledSystemIMEs(settings.disabledSystemInputMethods);
    ghost var env := PassEnv(screen, policy, hasHardKeyboard, selectedInputMethodSubtype);
    ghost var init := InitialState(settings);

    var needsToResetSelectedSubtype := false;
    for n := 0 to |inputMethodInfos|
      invariant PassState(enabledIMEAndSubtypesMap, disabledSystemIMEs, currentInputMethodId,
                          needsToResetSelectedSubtype) == Pass(inputMethodInfos[..n], init, env)
    {
      assert inputMethodInfos[..n + 1][..n] == inputMethodInfos[..n];
      enabledIMEAndSubtypesMap, disabledSystemIMEs, currentInputMethodId, needsToResetSelectedSubtype :=
        SaveInputMethod(inputMethodInfos[n], screen, policy, hasHardKeyboard, selectedInputMethodSubtype,
                        enabledIMEAndSubtypesMap, disabledSystemIMEs, currentInputMethodId, needsToResetSelectedSubtype);
    }
    assert inputMethodInfos[..|inputMethodInfos|] == inputMethodInfos;

    var builder;
    ghost var entries;
    builder, entries := BuildInputMethodsAndSubtypesString("", enabledIMEAndSubtypesMap);
    var disabledSysImesBuilder;
    ghost var order;
    disabledSysImesBuilder, order := BuildDisabledSystemInputMethods("", disabledSystemIMEs);

    var selected := settings.selectedInputMethodSubtype;
    if needsToResetSelectedSubtype || !IsInputMethodSubtypeSelected(settings.selectedInputMethodSubtype) {
      selected := Some(NotASubtypeId);
    }
    var disabled := settings.disabledSystemInputMethods;
    if |disabledSysImesBuilder| > 0 {
      disabled := Some(disabledSysImesBuilder);
    }
    var defaultIme := if currentInputMethodId.Some? then currentInputMethodId.value else "";
    saved := SecureSettings(Some(builder), disabled, Some(defaultIme), selected);
    assert "" + EnabledString(entries) == EnabledString(entries);
    assert "" + Join(order, InputMethodSeparator) == Join(order, InputMethodSeparator);
  }

  // ---------------------------------------------------------------------------
  // Properties of one iteration
  // ---------------------------------------------------------------------------

  /** An input method without a preference on the screen is skipped entirely. */
  lemma StepSkipsWithoutPreference(st: PassState, imi: InputMethodInfo, env: PassEnv)
    requires imi.id !in env.screen.imePrefs
    ensures ImeStep(st, imi, env) == st
  {
  }

  /** Entries of ids other than `id` are the same in both maps. */
  ghost predicate SameOtherEntries(a: EnabledMap, b: EnabledMap, id: string)
  {
    forall k :: k != id ==> (k in a <==> k in b) && (k in a ==> a[k] == b[k])
  }

  /**
    A checked input method is a key afterwards, and nothing else in the map or the current id
    changes; if it has no subtype preference its set is left as it was (empty when it has
    just been enabled) and so is the reset flag.
   */
  lemma StepEnables(st: PassState, imi: InputMethodInfo, env: PassEnv)
    requires imi.id in env.screen.imePrefs
    requires StaysEnabled(st, imi, env)
    ensures var r := ImeStep(st, imi, env);
      && imi.id in r.enabled
      && SameOtherEntries(r.enabled, st.enabled, imi.id)
      && r.currentId == st.currentId
    ensures !HasSubtypePref(imi.subtypeHashes, SubtypeContext(st, imi, env)) ==>
      var r := ImeStep(st, imi, env);
      && r.enabled[imi.id] == (if imi.id in st.enabled then st.enabled[imi.id] else {})
      && r.needsReset == st.needsReset
  {
    if !HasSubtypePref(imi.subtypeHashes, SubtypeContext(st, imi, env)) {
      var subtypesSet := if imi.id in st.enabled then st.enabled[imi.id] else {};
      ScanWithoutPrefs(imi.subtypeHashes, SubtypeScan(subtypesSet, false, st.needsReset),
                       SubtypeContext(st, imi, env));
    }
  }

  /**
    If a checked input method has a subtype preference, its set afterwards is exactly the
    hashes of its checked subtypes (stale hashes are dropped), and the reset flag is raised
    unless it is the current input method and the selected subtype is checked.
   */
  lemma StepRebuildsSubtypes(st: PassState, imi: InputMethodInfo, env: PassEnv)
    requires imi.id in env.screen.imePrefs
    requires StaysEnabled(st, imi, env)
    requires HasSubtypePref(imi.subtypeHashes, SubtypeContext(st, imi, env))
    ensures var r := ImeStep(st, imi, env);
      && r.enabled[imi.id] == CheckedHashes(imi.subtypeHashes, SubtypeContext(st, imi, env))
      && r.needsReset == !(st.currentId == Some(imi.id)
                           && SelectedSubtypeChecked(imi.subtypeHashes, SubtypeContext(st, imi, env)))
  {
    var subtypesSet := if imi.id in st.enabled then st.enabled[imi.id] else {};
    ScanRebuilds(imi.subtypeHashes, SubtypeScan(subtypesSet, false, st.needsReset),
                 SubtypeContext(st, imi, env));
  }

  /**
    An unchecked input method loses its key (nothing else in the map changes); if it was the
    current input method the current id is cleared, otherwise it is kept.
   */
  lemma StepDisables(st: PassState, imi: InputMethodInfo, env: PassEnv)
    requires imi.id in env.screen.imePrefs
    requires !StaysEnabled(st, imi, env)
    ensures var r := ImeStep(st, imi, env);
      && imi.id !in r.enabled
      && SameOtherEntries(r.enabled, st.enabled, imi.id)
      && r.currentId == (if st.currentId == Some(imi.id) then None else st.currentId)
      && r.needsReset == st.needsReset
  {
  }

  /**
    With a hard keyboard a system input method is in the disabled set afterwards exactly when
    it is not checked; otherwise its membership does not change, and no other id's ever does.
   */
  lemma StepTracksDisabledSystem(st: PassState, imi: InputMethodInfo, env: PassEnv)
    requires imi.id in env.screen.imePrefs
    ensures var r := ImeStep(st, imi, env);
      && (env.policy.isSystemIme(imi) && env.hasHardKeyboard ==>
            (imi.id in r.disabledSystem <==> !IsImeChecked(st, imi, env)))
      && (!(env.policy.isSystemIme(imi) && env.hasHardKeyboard) ==> r.disabledSystem == st.disabledSystem)
      && forall k :: k != imi.id ==> (k in r.disabledSystem <==> k in st.disabledSystem)
  {
  }

  // ---------------------------------------------------------------------------
  // Properties of the whole pass
  // ---------------------------------------------------------------------------

  ghost predicate Lists(infos: seq<InputMethodInfo>, id: string)
  {
    exists i :: 0 <= i < |infos| && infos[i].id == id
  }

  /** Ids no installed input method carries keep their map entry and disabled-set membership. */
  lemma {:induction false} PassLeavesUnlistedIds(infos: seq<InputMethodInfo>, st: PassState, env: PassEnv, k: string)
    requires !Lists(infos, k)
    ensures var r := Pass(infos, st, env);
      && (k in r.enabled <==> k in st.enabled)
      && (k in st.enabled ==> r.enabled[k] == st.enabled[k])
      && (k in r.disabledSystem <==> k in st.disabledSystem)
    decreases |infos|
  {
    if |infos| > 0 {
      var prefix := infos[..|infos| - 1];
      assert !Lists(prefix, k) by {
        forall i | 0 <= i < |prefix| ensures prefix[i].id != k {
          assert prefix[i] == infos[i];
        }
      }
      assert infos[|infos| - 1].id != k;
      PassLeavesUnlistedIds(prefix, st, env, k);
    }
  }

  /** No screen shows a subtype preference for any listed input method's subtypes. */
  ghost predicate NoSubtypePrefs(infos: seq<InputMethodInfo>, env: PassEnv)
  {
    forall i, h :: 0 <= i < |infos| && h in infos[i].subtypeHashes ==>
      (infos[i].id, h) !in env.screen.subtypePrefs
  }

  /** Without subtype preferences on the screen the reset flag never changes. */
  lemma {:induction false} PassWithoutSubtypePrefsKeepsReset(infos: seq<InputMethodInfo>, st: PassState, env: PassEnv)
    requires NoSubtypePrefs(infos, env)
    ensures Pass(infos, st, env).needsReset == st.needsReset
    decreases |infos|
  {
    if |infos| > 0 {
      var prefix := infos[..|infos| - 1];
      var imi := infos[|infos| - 1];
      assert NoSubtypePrefs(prefix, env) by {
        forall i, h | 0 <= i < |prefix| && h in prefix[i].subtypeHashes
          ensures (prefix[i].id, h) !in env.screen.subtypePrefs
        {
          assert prefix[i] == infos[i];
        }
      }
      PassWithoutSubtypePrefsKeepsReset(prefix, st, env);
      var mid := Pass(prefix, st, env);
      if imi.id in env.screen.imePrefs && StaysEnabled(mid, imi, env) {
        assert !HasSubtypePref(imi.subtypeHashes, SubtypeContext(mid, imi, env));
        StepEnables(mid, imi, env);
      }
    }
  }

  /**
    The disabled-system write: an empty set leaves the stored value as it was, and a
    non-empty well-formed set is stored so that it reads back unchanged.
   */
  lemma DisabledWriteAsymmetry(before: Option<string>, after: Option<string>, ids: set<string>)
    requires ValidIdSet(ids)
    requires WritesDisabled(before, after, ids)
    ensures ids == {} ==> after == before
    ensures ids != {} ==> after.Some? && ParseDisabled(after) == ids
  {
    var order: seq<string> :| Enumerates(order, ids) &&
      after == (if |Join(order, InputMethodSeparator)| > 0 then Some(Join(order, InputMethodSeparator)) else before);
    assert SerialisesIds(Join(order, InputMethodSeparator), ids);
    DisabledStringEmpty(Join(order, InputMethodSeparator), ids);
    if ids != {} {
      DisabledRoundTrip(Join(order, InputMethodSeparator), ids);
    }
  }

  // ---------------------------------------------------------------------------
  // Loading check boxes from the persisted map
  // ---------------------------------------------------------------------------

  ghost predicate ListsSubtype(infos: seq<InputMethodInfo>, id: string, hash: int)
  {
    exists i :: 0 <= i < |infos| && infos[i].id == id && hash in infos[i].subtypeHashes
  }

  /** Subtype check boxes after `updateSubtypesPreferenceChecked` for the map `m`. */
  ghost predicate SubtypesCheckedFrom(before: map<(string, int), bool>, after: map<(string, int), bool>,
                                      infos: seq<InputMethodInfo>, m: EnabledMap)
  {
    && after.Keys == before.Keys
    && forall id, h :: (id, h) in before ==>
      after[(id, h)] == if id in m && ListsSubtype(infos, id, h) then IntToString(h) in m[id] else before[(id, h)]
  }

  lemma ListsSubtypeAppend(done: seq<InputMethodInfo>, imi: InputMethodInfo)
    ensures forall id, h :: ListsSubtype(done + [imi], id, h) <==>
      ListsSubtype(done, id, h) || (id == imi.id && h in imi.subtypeHashes)
  {
    forall id, h ensures ListsSubtype(done + [imi], id, h) <==>
                         ListsSubtype(done, id, h) || (id == imi.id && h in imi.subtypeHashes)
    {
      if ListsSubtype(done + [imi], id, h) {
        var i :| 0 <= i < |done + [imi]| && (done + [imi])[i].id == id && h in (done + [imi])[i].subtypeHashes;
        if i < |done| {
          assert done[i] == (done + [imi])[i];
        }
      }
      if ListsSubtype(done, id, h) {
        var i :| 0 <= i < |done| && done[i].id == id && h in done[i].subtypeHashes;
        assert (done + [imi])[i] == done[i];
      }
      if id == imi.id && h in imi.subtypeHashes {
        assert (done + [imi])[|done|] == imi;
      }
    }
  }

  method UpdateSubtypesPreferenceChecked(subtypePrefs: map<(string, int), bool>,
                                         inputMethodProperties: seq<InputMethodInfo>,
                                         enabledSubtypes: EnabledMap)
    returns (updated: map<(string, int), bool>)
    ensures SubtypesCheckedFrom(subtypePrefs, updated, inputMethodProperties, enabledSubtypes)
  {
    updated := subtypePrefs;
    for n := 0 to |inputMethodProperties|
      invariant SubtypesCheckedFrom(subtypePrefs, updated, inputMethodProperties[..n], enabledSubtypes)
    {
      var imi := inputMethodProperties[n];
      var id := imi.id;
      ghost var done := inputMethodProperties[..n];
      assert inputMethodProperties[..n + 1] == done + [imi];
      if id in enabledSubtypes {
        var enabledSubtypesSet := enabledSubtypes[id];
        var hashes := imi.subtypeHashes;
        for i := 0 to |hashes|
          invariant updated.Keys == subtypePrefs.Keys
          invariant forall id', h :: (id', h) in subtypePrefs ==>
            updated[(id', h)] ==
              if id' in enabledSubtypes && (ListsSubtype(done, id', h) || (id' == id && h in hashes[..i]))
              then IntToString(h) in enabledSubtypes[id'] else subtypePrefs[(id', h)]
        {
          var hashCode := IntToString(hashes[i]);
          assert forall h :: h in hashes[..i + 1] <==> h in hashes[..i] || h == hashes[i];
          if (id, hashes[i]) in updated {
            updated := updated[(id, hashes[i]) := hashCode in enabledSubtypesSet];
          }
        }
        assert hashes[..|hashes|] == hashes;
      }
      ListsSubtypeAppend(done, imi);
    }
    assert inputMethodProperties[..|inputMethodProperties|] == inputMethodProperties;
  }

  /** Input-method check boxes after `loadInputMethodSubtypeList` for the map `m`. */
  ghost predicate ImesCheckedFrom(before: map<string, ImePreference>, after: map<string, ImePreference>,
                                  infos: seq<InputMethodInfo>, m: EnabledMap)
  {
    && after.Keys == before.Keys
    && forall id :: id in before ==>
      after[id] == if before[id].TwoState? && Lists(infos, id) then TwoState(id in m) else before[id]
  }

  lemma ListsAppend(done: seq<InputMethodInfo>, imi: InputMethodInfo)
    ensures forall id :: Lists(done + [imi], id) <==> Lists(done, id) || id == imi.id
  {
    forall id ensures Lists(done + [imi], id) <==> Lists(done, id) || id == imi.id {
      if Lists(done + [imi], id) {
        var i :| 0 <= i < |done| + 1 && (done + [imi])[i].id == id;
        if i < |done| {
          assert done[i] == (done + [imi])[i];
        }
      }
      if Lists(done, id) {
        var i :| 0 <= i < |done| && done[i].id == id;
        assert (done + [imi])[i] == done[i];
      }
      if id == imi.id {
        assert (done + [imi])[|done|].id == imi.id;
      }
    }
  }

  method LoadInputMethodSubtypeList(screen: PreferenceScreen, settings: SecureSettings,
                                    inputMethodInfos: seq<InputMethodInfo>)
    returns (loaded: PreferenceScreen)
    ensures ImesCheckedFrom(screen.imePrefs, loaded.imePrefs, inputMethodInfos,
                            ParseEnabled(settings.enabledInputMethods))
    ensures SubtypesCheckedFrom(screen.subtypePrefs, loaded.subtypePrefs, inputMethodInfos,
                                ParseEnabled(settings.enabledInputMethods))
  {
    var enabledSubtypes := GetEnabledInputMethodsAndSubtypeList(settings.enabledInputMethods);
    var imePrefs := screen.imePrefs;
    for n := 0 to |inputMethodInfos|
      invariant ImesCheckedFrom(screen.imePrefs, imePrefs, inputMethodInfos[..n], enabledSubtypes)
    {
      var imiId := inputMethodInfos[n].id;
      ghost var done := inputMethodInfos[..n];
      assert inputMethodInfos[..n + 1] == done + [inputMethodInfos[n]];
      ListsAppend(done, inputMethodInfos[n]);
      if imiId in imePrefs && imePrefs[imiId].TwoState? {
        imePrefs := imePrefs[imiId := TwoState(imiId in enabledSubtypes)];
      }
    }
    assert inputMethodInfos[..|inputMethodInfos|] == inputMethodInfos;
    var subtypePrefs := UpdateSubtypesPreferenceChecked(screen.subtypePrefs, inputMethodInfos, enabledSubtypes);
    loaded := PreferenceScreen(imePrefs, subtypePrefs);
  }

  /**
    Saving right after loading, with no box touched, keeps an enabled input method enabled
    and keeps each shown subtype's membership; it only drops hashes no shown subtype has.
   */
  lemma SaveAfterLoadKeepsSubtypes(st: PassState, imi: InputMethodInfo, env: PassEnv)
    requires imi.id in st.enabled
    requires imi.id in env.screen.imePrefs && env.screen.imePrefs[imi.id] == TwoState(true)
    requires forall h :: h in imi.subtypeHashes && (imi.id, h) in env.screen.subtypePrefs ==>
      env.screen.subtypePrefs[(imi.id, h)] == (IntToString(h) in st.enabled[imi.id])
    ensures var r := ImeStep(st, imi, env);
      && imi.id in r.enabled
      && r.enabled[imi.id] <= st.enabled[imi.id]
      && forall h :: h in imi.subtypeHashes && (imi.id, h) in env.screen.subtypePrefs ==>
        (IntToString(h) in r.enabled[imi.id] <==> IntToString(h) in st.enabled[imi.id])
  {
    var ctx := SubtypeContext(st, imi, env);
    StepEnables(st, imi, env);
    if HasSubtypePref(imi.subtypeHashes, ctx) {
      StepRebuildsSubtypes(st, imi, env);
      var r := ImeStep(st, imi, env);
      forall h | h in imi.subtypeHashes && (imi.id, h) in env.screen.subtypePrefs
        ensures IntToString(h) in r.enabled[imi.id] <==> IntToString(h) in st.enabled[imi.id]
      {
        if IntToString(h) in r.enabled[imi.id] {
          var h' :| h' in imi.subtypeHashes && (imi.id, h') in env.screen.subtypePrefs
                    && env.screen.subtypePrefs[(imi.id, h')] && IntToString(h') == IntToString(h);
          IntToStringInjective(h', h);
        }
      }
    }
  }

  // ---------------------------------------------------------------------------
  // Non-persistent preferences
  // ---------------------------------------------------------------------------

  /** A preference's key (possibly null) and whether it persists its own value. */
  datatype PreferenceKey = PreferenceKey(key: Option<string>, persistent: bool)

  /**
    `removeUnnecessaryNonPersistentPreference`: a non-persistent preference with a key has
    that key removed from its shared preferences; nothing else is touched.
   */
  function RemoveUnnecessaryNonPersistentPreference<V>(pref: PreferenceKey, prefs: Option<map<string, V>>)
    : (r: Option<map<string, V>>)
    ensures r.Some? <==> prefs.Some?
    ensures prefs.Some? && (pref.persistent || pref.key.None?) ==> r == prefs
    ensures prefs.Some? && !pref.persistent && pref.key.Some? ==>
      pref.key.value !in r.value && forall k :: k != pref.key.value ==>
        (k in r.value <==> k in prefs.value) && (k in r.value ==> r.value[k] == prefs.value[k])
  {
    if pref.persistent || pref.key.None? then prefs
    else match prefs
      case None => None
      case Some(p) => if pref.key.value in p then Some(p - {pref.key.value}) else prefs
  }

  /** Removing the preference's key a second time changes nothing. */
  lemma RemoveNonPersistentIdempotent<V>(pref: PreferenceKey, prefs: Option<map<string, V>>)
    ensures RemoveUnnecessaryNonPersistentPreference(pref, RemoveUnnecessaryNonPersistentPreference(pref, prefs))
      == RemoveUnnecessaryNonPersistentPreference(pref, prefs)
  {
  }
}
