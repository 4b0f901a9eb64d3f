# Installation options page of UniGetUI, modelled in Dafny

UniGetUI opens the installation-options page from its package dialogs. It edits
one package's `SerializableInstallationOptions`: run as administrator, interactive,
skip hash check, architecture, scope, install location, custom parameters,
version or pre-release, skip minor updates, and whether updates are ignored. The
page shows which command the package manager would run with those options.

The model follows `InstallOptionsPage` in six modules:

- `Wrappers` (wrappers.dfy) holds the `Option` type of the manager's
  install-location answer, which may be missing.
- `Backend` (backend.dfy) holds what the page only reads:
  - the operation kind;
  - the manager's capability flags;
  - the translated labels and the architecture and scope name tables, with the
    assumptions the page makes about them (`Tables.WellFormed`).
- `Serializable` (serializable.dfy) holds the options object. It is a reference
  the page writes in place (`SerializableInstallationOptions.Assign`), and its
  value is the record `OptionValues`.
- `Text` (text.dfy) holds the .NET `string.Split(char)` and `string.Join`
  semantics the page relies on. Empty segments are kept.
- `OptionRules` (option_rules.dfy) holds the page's rules stated on values:
  - the enable rules of the controls;
  - how each choice list is filled and pre-selected from the incoming options;
  - how the control values are read back into an options record (`Collect`,
    with its sentinel, "unset" location and parameter-split rules);
  - the ignore-updates decision on commit;
  - the operation coercion and the preview string.

  The lemmas there relate opening and reading back (round trips), the
  read-back's invariants, and the ignore-updates commit.
- `Dialogs` (install_options_page.dfy) holds the page object, the class
  `InstallOptionsPage`. Its `view` field holds the values of all controls. Its
  `versionLoading` field holds how far the version fetch has come, and
  `commandText` is the preview. The constructor, the two steps of `LoadVersions`,
  `LoadIgnoredUpdates`, `GetUpdatedOptions`, `GenerateCommand` and every handler
  are methods. Each method states the whole new state it leaves. The
  constructor establishes the invariant `Valid`, and every step and handler that
  a caller runs on an open page keeps it, including the commit step
  `GetUpdatedOptions`, the only one that writes the ignored-updates store. The
  helpers `GenerateCommand` and `SetVersionSelection` are called inside those
  steps and state their effect without the invariant. The architecture list and
  the appending of fetched versions are the source's loops, as the methods
  `ArchitectureChoices` and `AppendVersions`.

Four behaviours of the code that are easy to miss:

- **Empty parameter text.** The parameter text is split at spaces with
  empty segments kept. An empty text becomes `[""]`, not an empty list
  (`ParametersRoundTrip`).
- **Ignore-updates marker written twice.** With the ignore box ticked, a
  commit adds the `*` marker even when it is already there (`CommitDecision`).
  The store's state is still stable under a repeated commit
  (`RepeatedCommitIsStable`).
- **The preview writes the options.** Regenerating the preview writes the
  control values into the caller's options object (`GenerateCommand`).
- **Location and disabled controls.** The read-back does not consult the
  location capability. A disabled checkbox keeps, and writes back, the value it
  was opened with (`CheckboxesPassThrough`).

## Model

| member | source | states |
|---|---|---|
| Text.Split | src/UniGetUI/Pages/DialogPages/InstallOptions.xaml.cs:191 | splitting yields at least one segment and no segment holds the separator |
| Text.JoinOfSplit | src/UniGetUI/Pages/DialogPages/InstallOptions.xaml.cs:191 | joining the split parameter text with spaces restores the text exactly |
| Text.SplitOfJoin | src/UniGetUI/Pages/DialogPages/InstallOptions.xaml.cs:126-129 | splitting the joined separator-free parameters gives the same list back |
| Serializable.SerializableInstallationOptions.Assign | src/UniGetUI/Pages/DialogPages/InstallOptions.xaml.cs:166-202 | after the read-back's field writes the object's value is exactly the record written |
| OptionRules.UninstallDisablesInstallTimeControls | src/UniGetUI/Pages/DialogPages/InstallOptions.xaml.cs:45-67 | for an uninstall the hash, architecture and version controls are disabled, and an update never enables the version combo |
| OptionRules.EnabledControlsNeedCapability | src/UniGetUI/Pages/DialogPages/InstallOptions.xaml.cs:45-67 | each of those controls is enabled only when the manager has the matching capability |
| OptionRules.EnablingAgreesWithCommandOperation | src/UniGetUI/Pages/DialogPages/InstallOptions.xaml.cs:45-67 | the operation None enables the same controls as Install, the operation the preview uses for it |
| OptionRules.ArchitectureValue | src/UniGetUI/Pages/DialogPages/InstallOptions.xaml.cs:170-177 | the stored architecture is the selection when it is a key of the inverted name table and "" otherwise |
| OptionRules.ScopeValue | src/UniGetUI/Pages/DialogPages/InstallOptions.xaml.cs:179-186 | a selection that is a scope display name stores the canonical name of that scope, any other stores ""; so the result is "", the canonical Local name or the canonical Global name |
| OptionRules.CollectedOptionsAreConsistent | src/UniGetUI/Pages/DialogPages/InstallOptions.xaml.cs:191-201 | a read-back never stores a version together with the pre-release flag, a stored version is the selection, and the parameter list is the text split at spaces (no element holds a space, joining restores the text) |
| OptionRules.CheckboxesPassThrough | src/UniGetUI/Pages/DialogPages/InstallOptions.xaml.cs:166-168 | the admin, interactive, skip-hash and skip-minor flags are stored as the boxes show them, enabled or not |
| OptionRules.CollectedArchitectureIsSupported | src/UniGetUI/Pages/DialogPages/InstallOptions.xaml.cs:48-61 | any entry of the architecture combo is stored as "" or as the name of an architecture the manager supports |
| OptionRules.ArchitectureRoundTrip | src/UniGetUI/Pages/DialogPages/InstallOptions.xaml.cs:51-61 | opening and reading back keeps the stored architecture exactly when it names a supported architecture, else yields "" |
| OptionRules.ScopeRoundTrip | src/UniGetUI/Pages/DialogPages/InstallOptions.xaml.cs:102-118 | opening and reading back keeps a canonical scope name when scopes are supported, else yields "" |
| OptionRules.PickedScopeReadBack | src/UniGetUI/Pages/DialogPages/InstallOptions.xaml.cs:103-118 | a picked "Default" entry stores ""; a picked Local or Global entry, whose text is the translated name, stores its canonical scope name when the translation leaves the name unchanged and "" when the translated name is no scope display name |
| OptionRules.LocationRoundTrip | src/UniGetUI/Pages/DialogPages/InstallOptions.xaml.cs:123-124 | opening and reading back keeps the location unless it equals the package's own location, which becomes "" |
| OptionRules.ParametersRoundTrip | src/UniGetUI/Pages/DialogPages/InstallOptions.xaml.cs:126-129 | space-free stored parameters come back unchanged, and an empty list comes back as [""] |
| OptionRules.VersionAndPreReleaseExclusive | src/UniGetUI/Pages/DialogPages/InstallOptions.xaml.cs:192-201 | the pre-release flag and a non-empty version are never read back together, and both sentinels store no version |
| OptionRules.FetchedVersionRoundTrip | src/UniGetUI/Pages/DialogPages/InstallOptions.xaml.cs:147-154 | after a fetch targeting the stored version, the read-back pins it exactly when it was fetched and otherwise keeps the opening pre-release choice |
| OptionRules.ConstructorPreviewNormalises | src/UniGetUI/Pages/DialogPages/InstallOptions.xaml.cs:29-132 | the constructor's own read-back keeps the checkboxes and pre-release choice, normalises architecture, scope, location and parameters, and clears the version |
| OptionRules.PinnedVersionNotReselectedAsWritten | src/UniGetUI/Pages/DialogPages/InstallOptions.xaml.cs:150-153 | as written, the fetch compares against the version already cleared by the constructor's preview, so a listed pinned version is not selected and is read back as "" |
| OptionRules.PinnedVersionReselected | src/UniGetUI/Pages/DialogPages/InstallOptions.xaml.cs:150-153 | compared against the version the dialog opened with, a listed pinned version is selected and read back, without the pre-release flag |
| OptionRules.PreviewNeverWritesIgnoreState | src/UniGetUI/Pages/DialogPages/InstallOptions.xaml.cs:204 | the preview's read-back never writes the ignored-updates store |
| OptionRules.CommitDecision | src/UniGetUI/Pages/DialogPages/InstallOptions.xaml.cs:204-216 | a ticked box always adds the "*" marker, and an unticked one removes the marker exactly when it is "*" and otherwise writes nothing |
| OptionRules.CommitMakesMarkerMatchCheckbox | src/UniGetUI/Pages/DialogPages/InstallOptions.xaml.cs:204-216 | after a commit the store ignores all updates exactly when the box was ticked |
| OptionRules.RepeatedCommitIsStable | src/UniGetUI/Pages/DialogPages/InstallOptions.xaml.cs:204-216 | committing a second time with the same box leaves the marker as one commit does |
| OptionRules.CommandOperation | src/UniGetUI/Pages/DialogPages/InstallOptions.xaml.cs:256-257 | None becomes Install, and every other operation is kept |
| OptionRules.PreviewRecoversArguments | src/UniGetUI/Pages/DialogPages/InstallOptions.xaml.cs:259 | the preview is the executable's name, a space, and text that splits back into the space-free arguments |
| Dialogs.OpenedView | src/UniGetUI/Pages/DialogPages/InstallOptions.xaml.cs:38-129 | the controls of a freshly opened page read back the initial control values, the architecture and version selections are entries of their combos, and the ignore box is clear |
| Dialogs.ArchitectureChoices | src/UniGetUI/Pages/DialogPages/InstallOptions.xaml.cs:47-61 | the loop lists "Default" then each supported architecture, and selects the stored architecture when it is listed, else "Default" |
| Dialogs.AppendVersions | src/UniGetUI/Pages/DialogPages/InstallOptions.xaml.cs:147-154 | the loop appends the fetched versions in order, and the selection becomes the target exactly when it was fetched |
| Dialogs.InstallOptionsPage.constructor | src/UniGetUI/Pages/DialogPages/InstallOptions.xaml.cs:29-134 | the page opens with the controls of OpenedView for the incoming options, the fetch pending exactly when versions are supported, the invariant established, and the options and preview regenerated from the controls |
| Dialogs.InstallOptionsPage.SetVersionSelection | src/UniGetUI/Pages/DialogPages/InstallOptions.xaml.cs:69-78 | a changed version selection sets the ignore box to whether the entry pins a version and regenerates the preview, and an unchanged one changes nothing |
| Dialogs.InstallOptionsPage.LoadIgnoredUpdates | src/UniGetUI/Pages/DialogPages/InstallOptions.xaml.cs:136-139 | the ignore box becomes whether the store's marker is "*", and nothing else changes |
| Dialogs.InstallOptionsPage.LoadVersionsBegin | src/UniGetUI/Pages/DialogPages/InstallOptions.xaml.cs:141-144 | the ignore box takes the store's answer and the version combo is disabled while the fetch runs |
| Dialogs.InstallOptionsPage.LoadVersionsEnd | src/UniGetUI/Pages/DialogPages/InstallOptions.xaml.cs:146-161 | the fetched versions are appended, the version the dialog opened with is selected when fetched, the combo's enabled flag is recomputed, and a moved selection updates the ignore box and the preview |
| Dialogs.InstallOptionsPage.LoadVersionsEndAsWritten | src/UniGetUI/Pages/DialogPages/InstallOptions.xaml.cs:146-161 | as written, the fetched versions are matched against the options' version, which is "" by then, so the selection only moves to a "" entry; the rest of the new state is as in LoadVersionsEnd: the entries appended, the enabled flag recomputed, the other controls kept, and a moved selection updating the ignore box, the options and the preview, while an unmoved one leaves them |
| Dialogs.InstallOptionsPage.GetUpdatedOptions | src/UniGetUI/Pages/DialogPages/InstallOptions.xaml.cs:164-219 | the options object is overwritten with the read-back of the controls and returned, the page invariant is kept, and the store write is the commit decision for the ignore box |
| Dialogs.InstallOptionsPage.GenerateCommand | src/UniGetUI/Pages/DialogPages/InstallOptions.xaml.cs:252-260 | before the page is loaded nothing changes; afterwards the options hold the read-back, the preview is built for the coerced operation, and the stored version follows the selection |
| Dialogs.InstallOptionsPage.SelectArchitecture | src/UniGetUI/Pages/DialogPages/InstallOptions.xaml.cs:249 | picking an architecture entry selects it, and only a change regenerates the options and the preview |
| Dialogs.InstallOptionsPage.SelectScope | src/UniGetUI/Pages/DialogPages/InstallOptions.xaml.cs:244 | picking a scope entry selects it, and only a change regenerates the options and the preview |
| Dialogs.InstallOptionsPage.SelectVersion | src/UniGetUI/Pages/DialogPages/InstallOptions.xaml.cs:245 | picking a version entry selects it, and only a change sets the ignore box and regenerates the options and the preview |
| Dialogs.InstallOptionsPage.ClickAdmin | src/UniGetUI/Pages/DialogPages/InstallOptions.xaml.cs:246 | a click on the enabled admin box toggles it and regenerates the options and the preview |
| Dialogs.InstallOptionsPage.ClickInteractive | src/UniGetUI/Pages/DialogPages/InstallOptions.xaml.cs:247 | a click on the enabled interactive box toggles it and regenerates the options and the preview |
| Dialogs.InstallOptionsPage.ClickSkipHash | src/UniGetUI/Pages/DialogPages/InstallOptions.xaml.cs:248 | a click on the enabled skip-hash box toggles it and regenerates the options and the preview |
| Dialogs.InstallOptionsPage.ClickSkipMinorUpdates | src/UniGetUI/Pages/DialogPages/InstallOptions.xaml.cs:202 | the skip-minor box toggles and, having no handler, leaves the options and the preview as they were |
| Dialogs.InstallOptionsPage.ClickIgnoreUpdates | src/UniGetUI/Pages/DialogPages/InstallOptions.xaml.cs:206 | the ignore box toggles and only a later commit acts on it |
| Dialogs.InstallOptionsPage.EditParameters | src/UniGetUI/Pages/DialogPages/InstallOptions.xaml.cs:243 | the parameter text takes the new text, and only a change regenerates the options and the preview |
| Dialogs.InstallOptionsPage.SelectDirClick | src/UniGetUI/Pages/DialogPages/InstallOptions.xaml.cs:221-230 | a chosen folder becomes the location text, a cancelled picker keeps it, and the preview is regenerated either way |
| Dialogs.InstallOptionsPage.ResetDirClick | src/UniGetUI/Pages/DialogPages/InstallOptions.xaml.cs:232-236 | the location text becomes the package's own location and the preview is regenerated |

## Left out

- The rendering of the page, `CloseButton_Click` (it only raises `Close`) and
  `LayoutGrid_SizeChanged` (it only adjusts the height) are left out. They
  change no option state.
- The package object is left out. Its parts the page uses become inputs:
  - the install location the manager reports (`installLocation`);
  - the version list (the `versions` argument of `LoadVersionsEnd`);
  - the ignored-updates store's answers (`marker`, `hasUpdatesIgnored`, `currentMarker`);
  - the folder picker's result (`folder`);
  - the argument builder `OperationHelper.GetParameters` with
    `InstallationOptions.FromSerialized`, which becomes the function
    `getParameters` applied to the options record;
  - the executable's name.

  `CoreTools.Translate` and the `CommonTranslations` tables are the `Tables`
  input. Their contents are not part of this model.
- Writes to the ignored-updates store are returned as an `IgnoreAction` and
  not performed. `MarkerAfter` assumes an added marker reads back as `*` and a
  removed one as "".
- Concurrency is left out. The asynchronous steps run as separate methods that
  any caller runs in some order:
  - `LoadVersions` is split at its awaits into `LoadVersionsBegin` and
    `LoadVersionsEnd`;
  - `LoadIgnoredUpdates` may run before, between or after them;
  - the awaited parts of `GenerateCommand` and `GetUpdatedOptions` complete
    within the call.

  Interleavings inside one step, and the progress indicator, are not modelled.
  Failures of the backend calls are not modelled.
- Dialogs.InstallOptionsPage.constructor: the model builds all controls in one
  assignment, with the selection handlers already applied. While the
  constructor runs, the source's handlers regenerate nothing, because the page
  is marked loaded only at its end; the model marks it loaded just before its
  closing `GenerateCommand` call. The version and scope entries and selections
  are given by `VersionItems`, `InitialVersion`, `ScopeItems` and
  `InitialScope` rather than by the source's step-by-step selection changes.
- Dialogs.InstallOptionsPage.LoadVersionsEnd: the selection is moved once,
  after all fetched entries are appended, instead of when the matching entry is
  added. The read-back only looks at the selected entry, so the resulting state
  is the same.
- Picking a scope: the Local and Global entries are translated names (lines
  107 and 113), and the read-back looks the selection up among the untranslated
  names (lines 179-181). When a translation changes a scope name, picking that
  entry stores "" (`PickedScopeReadBack`). The translation tables are not part
  of this model, so whether any translation differs, and so whether this loses
  the user's choice, is not decided here.
- Setting a combo's `SelectedValue` is modelled as selecting that value even
  when no entry equals it. The untranslated scope name the constructor selects
  (lines 108-117) is such a value when translations differ. How WinUI treats a
  value that is not among the entries is not modelled.
- The parameter text box is taken to start empty, its state in the page markup
  before line 126 runs. The markup is not part of this model.
- The preview shows no "unavailable" state when the argument builder fails,
  because failures of `getParameters` are not modelled.

## Findings

| source | as written | input that shows it | evidently intended | confidence | as-written member | corrected member |
|---|---|---|---|---|---|---|
| src/UniGetUI/Pages/DialogPages/InstallOptions.xaml.cs:150 | `LoadVersions` matches each fetched version against `Options.Version`. The constructor's `GenerateCommand` (line 132) has already overwritten that field with "", because the version combo then holds only the Latest/PreRelease sentinels | options with `Version = "1.2.3"`, a manager that supports custom versions, and a fetch returning `["1.2.3"]`: "1.2.3" is never selected, and the options are read back with `Version = ""` | the version the dialog was opened with is re-selected when the manager lists it | not executed | Dialogs.InstallOptionsPage.LoadVersionsEndAsWritten, OptionRules.PinnedVersionNotReselectedAsWritten | Dialogs.InstallOptionsPage.LoadVersionsEnd, OptionRules.PinnedVersionReselected |
