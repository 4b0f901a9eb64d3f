/**
  The installation-options dialog page as an object: the state of its controls,
  the constructor that fills and pre-selects them from the incoming options, the
  steps of the version fetch, the user's edits, the read-back into the options
  object, and the command preview.  Controls are modelled by their values
  (checked flag, entries, selected entry, text, enabled flag).
 */
module Dialogs {
  import opened Backend
  import opened Serializable
  import opened OptionRules
  import opened Text
  import Wrappers

  /** How far the version fetch started by the constructor has come. */
  datatype VersionLoading = Idle | AwaitingIgnoreState | AwaitingVersions

  /** A checkbox: whether it is ticked and whether the user can click it. */
  datatype CheckBox = CheckBox(checked: bool, enabled: bool)

  /** A combo box: its entries, the selected entry, and whether the user can change it. */
  datatype ComboBox = ComboBox(items: seq<string>, selected: string, enabled: bool)

  /** The page's controls, by value. */
  datatype View = View(
    adminBox: CheckBox,
    interactiveBox: CheckBox,
    hashBox: CheckBox,
    archCombo: ComboBox,
    versionCombo: ComboBox,
    skipMinorChecked: bool,
    ignoreChecked: bool,
    scopeCombo: ComboBox,
    /** Whether the reset and pick buttons of the location are enabled. */
    locationEnabled: bool,
    locationText: string,
    parametersText: string)
  {
    /** The values of the controls the options are read from. */
    function Values(): Controls
    {
      Controls(adminBox.checked, interactiveBox.checked, hashBox.checked, archCombo.selected, scopeCombo.selected,
               locationText, parametersText, versionCombo.selected, skipMinorChecked)
    }
  }

  /**
    The controls as the constructor leaves them for the options `initial` the
    dialog was opened with: each control shows the stored value (or the entry
    that stands for it), the enabled flags follow the manager's capabilities
    and the operation, the combos hold their fixed entries, and the ignore box
    is cleared by the first version selection.
   */
  function OpenedView(op: OperationType, caps: Capabilities, tables: Tables, initial: OptionValues,
                      packageLocation: string): (v: View)
    ensures v.Values() == InitialControls(caps, tables, initial, packageLocation)
    ensures v.archCombo.selected in v.archCombo.items && v.versionCombo.selected in v.versionCombo.items
    ensures !v.ignoreChecked
  {
    View(CheckBox(initial.runAsAdministrator, caps.canRunAsAdmin),
         CheckBox(initial.interactiveInstallation, caps.canRunInteractively),
         CheckBox(initial.skipHashCheck, HashCheckEnabled(op, caps)),
         ComboBox(ArchitectureItems(caps, tables), InitialArchitecture(caps, tables, initial.architecture),
                  ArchitectureEnabled(op, caps)),
         ComboBox(VersionItems(caps, tables), InitialVersion(caps, tables, initial.preRelease), VersionEnabled(op, caps)),
         initial.skipMinorUpdates,
         PinsVersion(InitialVersion(caps, tables, initial.preRelease), tables),
         ComboBox(ScopeItems(caps, tables), InitialScope(caps, tables, initial.installationScope),
                  caps.supportsCustomScopes),
         caps.supportsCustomLocations,
         InitialLocationText(initial.customInstallLocation, packageLocation),
         InitialParametersText(initial.customParameters))
  }

  /**
    The entries of the architecture combo and the one selected at start:
    "Default" first and selected, then each supported architecture in order,
    selecting the one whose name is the stored architecture.
   */
  method ArchitectureChoices(caps: Capabilities, tables: Tables, requested: string)
    returns (items: seq<string>, selected: string)
    ensures items == ArchitectureItems(caps, tables)
    ensures selected == InitialArchitecture(caps, tables, requested)
    ensures selected in items
  {
    items := [tables.defaultLabel];
    selected := tables.defaultLabel;
    if caps.supportsCustomArchitectures {
      var archs := caps.supportedCustomArchitectures;
      var i := 0;
      while i < |archs|
        invariant 0 <= i <= |archs|
        invariant items == [tables.defaultLabel] + ArchitectureNames(archs[..i], tables)
        invariant selected == if requested in ArchitectureNames(archs[..i], tables)
                              then requested else tables.defaultLabel
      {
        var name := tables.archNames(archs[i]);
        assert ArchitectureNames(archs[..i + 1], tables) == ArchitectureNames(archs[..i], tables) + [name];
        items := items + [name];
        if requested == name {
          selected := name;
        }
        i := i + 1;
      }
      assert archs[..i] == archs;
    } else {
      assert items == [tables.defaultLabel] + [];
    }
  }

  /**
    The entries and selection after appending fetched `versions` in order to
    `items`, selecting each entry equal to `target`.
   */
  method AppendVersions(items: seq<string>, selected: string, versions: seq<string>, target: string)
    returns (newItems: seq<string>, newSelected: string)
    ensures newItems == items + versions
    ensures newSelected == FetchedSelection(selected, versions, target)
    ensures newSelected == selected || newSelected == target
  {
    newItems := items;
    newSelected := selected;
    var i := 0;
    while i < |versions|
      invariant 0 <= i <= |versions|
      invariant newItems == items + versions[..i]
      invariant newSelected == FetchedSelection(selected, versions[..i], target)
    {
      var ver := versions[i];
      assert versions[..i + 1] == versions[..i] + [ver];
      newItems := newItems + [ver];
      if target == ver {
        newSelected := ver;
      }
      i := i + 1;
    }
    assert versions[..i] == versions;
  }

  class InstallOptionsPage {
    /** The caller's options object, written in place by the read-back. */
    const options: SerializableInstallationOptions
    const operation: OperationType
    const caps: Capabilities
    const tables: Tables
    const packageInstallLocation: string
    /** The version the options held when the dialog opened. */
    const requestedVersion: string
    /** The manager's argument builder and executable name. */
    const getParameters: (OptionValues, OperationType) -> seq<string>
    const friendlyName: string

    var uiLoaded: bool
    var view: View
    var versionLoading: VersionLoading
    var commandText: string

    /** The options the controls currently read back to. */
    function ReadBack(): OptionValues
      reads this`view
    {
      Collect(view.Values(), packageInstallLocation, tables)
    }

    /** The preview text for the options object's current value. */
    function Preview(): string
      reads this, options
    {
      CommandPreview(friendlyName, getParameters(options.Value(), CommandOperation(operation)))
    }

    /**
      The page invariant once constructed: the architecture and version
      selections are entries of their combos, the combos hold the fixed entries,
      the version list stays at the sentinels while the fetch is outstanding, and
      the options object holds the version read back from the current selection
      (every change of that selection regenerates the preview, which writes it).
     */
    ghost predicate Valid()
      reads this, options
    {
      uiLoaded
      && view.archCombo.items == ArchitectureItems(caps, tables) && view.archCombo.selected in view.archCombo.items
      && view.scopeCombo.items == ScopeItems(caps, tables)
      && VersionItems(caps, tables) <= view.versionCombo.items && view.versionCombo.selected in view.versionCombo.items
      && (versionLoading != Idle ==> caps.supportsCustomVersions && view.versionCombo.items == VersionItems(caps, tables))
      && (versionLoading == AwaitingVersions ==> !view.versionCombo.enabled)
      && options.version == VersionValue(view.versionCombo.selected, tables)
    }

    /**
      Opens the dialog for `options`.  The version fetch it starts, when the
      manager lists versions, is left pending; LoadVersionsBegin and
      LoadVersionsEnd complete it.
     */
    constructor (operation: OperationType, options: SerializableInstallationOptions, caps: Capabilities,
                 tables: Tables, installLocation: Wrappers.Option<string>,
                 getParameters: (OptionValues, OperationType) -> seq<string>, friendlyName: string)
      modifies options
      ensures Valid()
      ensures view == OpenedView(operation, caps, tables, old(options.Value()), packageInstallLocation)
      ensures versionLoading == if caps.supportsCustomVersions then AwaitingIgnoreState else Idle
      ensures this.options == options && this.operation == operation && this.caps == caps
      ensures this.tables == tables && this.getParameters == getParameters && this.friendlyName == friendlyName
      ensures packageInstallLocation == PackageInstallLocation(installLocation, tables)
      ensures requestedVersion == old(options.version)
      ensures options.Value() == ReadBack() && commandText == Preview()
    {
      var initial := options.Value();
      this.options := options;
      this.operation := operation;
      this.caps := caps;
      this.tables := tables;
      this.getParameters := getParameters;
      this.friendlyName := friendlyName;
      var location := PackageInstallLocation(installLocation, tables);
      packageInstallLocation := location;
      requestedVersion := initial.version;

      var archs, arch := ArchitectureChoices(caps, tables, initial.architecture);
      // The version selection handler sets the ignore box from the selected
      // entry; the preview handler does nothing before the page is loaded.
      var version := InitialVersion(caps, tables, initial.preRelease);
      view := View(CheckBox(initial.runAsAdministrator, caps.canRunAsAdmin),
                   CheckBox(initial.interactiveInstallation, caps.canRunInteractively),
                   CheckBox(initial.skipHashCheck, HashCheckEnabled(operation, caps)),
                   ComboBox(archs, arch, ArchitectureEnabled(operation, caps)),
                   ComboBox(VersionItems(caps, tables), version, VersionEnabled(operation, caps)),
                   initial.skipMinorUpdates,
                   PinsVersion(version, tables),
                   ComboBox(ScopeItems(caps, tables), InitialScope(caps, tables, initial.installationScope),
                            caps.supportsCustomScopes),
                   caps.supportsCustomLocations,
                   InitialLocationText(initial.customInstallLocation, location),
                   InitialParametersText(initial.customParameters));
      versionLoading := if caps.supportsCustomVersions then AwaitingIgnoreState else Idle;
      commandText := "";
      uiLoaded := true;
      new;
      GenerateCommand();
    }

    /**
      Writes the control values into the options object and decides the write to
      the ignored-updates store; `currentMarker` is the store's answer when asked
      for the package's ignored version.
     */
    method GetUpdatedOptions(updateIgnoredUpdates: bool, currentMarker: string)
      returns (result: SerializableInstallationOptions, write: IgnoreAction)
      modifies options
      ensures old(Valid()) ==> Valid()
      ensures result == options
      ensures options.Value() == ReadBack()
      ensures write == IgnoreUpdatesAction(updateIgnoredUpdates, view.ignoreChecked, currentMarker)
    {
      options.Assign(Collect(view.Values(), packageInstallLocation, tables));

      write := if !updateIgnoredUpdates then NoWrite
               else if view.ignoreChecked then AddWildcard
               else if currentMarker == "*" then RemoveMarker
               else NoWrite;
      result := options;
    }

    /**
      Regenerates the preview once the page is loaded: reads the controls back
      into the options object without touching the ignored-updates store, and
      shows the manager's arguments for the coerced operation.
     */
    method GenerateCommand()
      modifies this`commandText, options
      ensures uiLoaded ==> options.Value() == ReadBack() && commandText == Preview()
      ensures uiLoaded ==> options.version == VersionValue(view.versionCombo.selected, tables)
      ensures !uiLoaded ==> options.Value() == old(options.Value()) && commandText == old(commandText)
    {
      if !uiLoaded {
        return;
      }
      var io, write := GetUpdatedOptions(false, "");
      assert write == NoWrite;
      var op := operation;
      if op == None {
        op := Install;
      }
      var commandLine := getParameters(io.Value(), op);
      commandText := friendlyName + " " + Join(commandLine, ' ');
    }

    /**
      Sets the version selection; when it changes, the selection handlers set the
      ignore box from the new entry and regenerate the preview.
     */
    method SetVersionSelection(v: string)
      modifies this`view, this`commandText, options
      ensures view == if v != old(view.versionCombo.selected)
                      then old(view).(versionCombo := old(view.versionCombo).(selected := v),
                                      ignoreChecked := PinsVersion(v, tables))
                      else old(view)
      ensures v != old(view.versionCombo.selected) && uiLoaded ==>
        options.Value() == ReadBack() && commandText == Preview()
      ensures !(v != old(view.versionCombo.selected) && uiLoaded) ==>
        options.Value() == old(options.Value()) && commandText == old(commandText)
    {
      if v != view.versionCombo.selected {
        view := view.(versionCombo := view.versionCombo.(selected := v));
        view := view.(ignoreChecked := PinsVersion(v, tables));
        GenerateCommand();
      }
    }

    /** Sets the ignore box from the store's marker. */
    method LoadIgnoredUpdates(marker: string)
      requires Valid()
      modifies this`view
      ensures Valid()
      ensures view == old(view).(ignoreChecked := marker == "*")
    {
      view := view.(ignoreChecked := marker == "*");
    }

    /** The version fetch, once the store has said whether updates are ignored. */
    method LoadVersionsBegin(hasUpdatesIgnored: bool)
      requires Valid() && versionLoading == AwaitingIgnoreState
      modifies this`view, this`versionLoading
      ensures Valid()
      ensures view == old(view).(ignoreChecked := hasUpdatesIgnored,
                                 versionCombo := old(view.versionCombo).(enabled := false))
      ensures versionLoading == AwaitingVersions
    {
      view := view.(ignoreChecked := hasUpdatesIgnored);
      view := view.(versionCombo := view.versionCombo.(enabled := false));
      versionLoading := AwaitingVersions;
    }

    /**
      The version fetch, once the manager has listed `versions`: they are appended
      in order, the version the dialog opened with is selected if listed, and the
      combo is enabled again by the same rule as at construction.  The selection
      moves at most once, to an entry the appended ones do not affect, so its
      handlers are run once after the entries are in.
     */
    method LoadVersionsEnd(versions: seq<string>)
      requires Valid() && versionLoading == AwaitingVersions
      modifies this`view, this`versionLoading, this`commandText, options
      ensures Valid()
      ensures var selected := FetchedSelection(old(view.versionCombo.selected), versions, requestedVersion);
        view == old(view).(versionCombo := ComboBox(old(view.versionCombo.items) + versions, selected,
                                                    VersionEnabled(operation, caps)),
                           ignoreChecked := if selected != old(view.versionCombo.selected)
                                            then PinsVersion(selected, tables) else old(view.ignoreChecked))
      ensures view.versionCombo.selected != old(view.versionCombo.selected) ==>
        options.Value() == ReadBack() && commandText == Preview()
      ensures view.versionCombo.selected == old(view.versionCombo.selected) ==>
        options.Value() == old(options.Value()) && commandText == old(commandText)
      ensures versionLoading == Idle
    {
      var items, selected := AppendVersions(view.versionCombo.items, view.versionCombo.selected, versions,
                                            requestedVersion);
      view := view.(versionCombo := view.versionCombo.(items := items));
      SetVersionSelection(selected);
      view := view.(versionCombo := view.versionCombo.(enabled := VersionEnabled(operation, caps)));
      versionLoading := Idle;
    }

    /**
      The same step as the repository writes it: each fetched version is compared
      with the options object's version instead of the one the dialog opened
      with.  The constructor's preview has already set that field to "", and it
      stays "" while the selection can only move to a "" entry, so the selection
      never moves to the version the dialog opened with.
     */
    method LoadVersionsEndAsWritten(versions: seq<string>)
      requires Valid() && versionLoading == AwaitingVersions
      modifies this`view, this`versionLoading, this`commandText, options
      ensures Valid()
      ensures var selected := FetchedSelection(old(view.versionCombo.selected), versions, "");
        view == old(view).(versionCombo := ComboBox(old(view.versionCombo.items) + versions, selected,
                                                    VersionEnabled(operation, caps)),
                           ignoreChecked := if selected != old(view.versionCombo.selected)
                                            then PinsVersion(selected, tables) else old(view.ignoreChecked))
      ensures view.versionCombo.selected != old(view.versionCombo.selected) ==>
        options.Value() == ReadBack() && commandText == Preview()
      ensures view.versionCombo.selected == old(view.versionCombo.selected) ==>
        options.Value() == old(options.Value()) && commandText == old(commandText)
      ensures versionLoading == Idle
    {
      assert options.version == "";
      var items, selected := AppendVersions(view.versionCombo.items, view.versionCombo.selected, versions,
                                            options.version);
      view := view.(versionCombo := view.versionCombo.(items := items));
      SetVersionSelection(selected);
      view := view.(versionCombo := view.versionCombo.(enabled := VersionEnabled(operation, caps)));
      versionLoading := Idle;
    }

    /** The user picks entry `i` of the architecture combo. */
    method SelectArchitecture(i: nat)
      requires Valid() && view.archCombo.enabled && i < |view.archCombo.items|
      modifies this`view, this`commandText, options
      ensures Valid() && view == old(view).(archCombo := old(view.archCombo).(selected := old(view.archCombo.items)[i]))
      ensures view.archCombo.selected != old(view.archCombo.selected) ==>
        options.Value() == ReadBack() && commandText == Preview()
      ensures view.archCombo.selected == old(view.archCombo.selected) ==>
        options.Value() == old(options.Value()) && commandText == old(commandText)
    {
      if view.archCombo.items[i] != view.archCombo.selected {
        view := view.(archCombo := view.archCombo.(selected := view.archCombo.items[i]));
        GenerateCommand();
      }
    }

    /** The user picks entry `i` of the scope combo. */
    method SelectScope(i: nat)
      requires Valid() && view.scopeCombo.enabled && i < |view.scopeCombo.items|
      modifies this`view, this`commandText, options
      ensures Valid() && view == old(view).(scopeCombo := old(view.scopeCombo).(selected := old(view.scopeCombo.items)[i]))
      ensures view.scopeCombo.selected != old(view.scopeCombo.selected) ==>
        options.Value() == ReadBack() && commandText == Preview()
      ensures view.scopeCombo.selected == old(view.scopeCombo.selected) ==>
        options.Value() == old(options.Value()) && commandText == old(commandText)
    {
      if view.scopeCombo.items[i] != view.scopeCombo.selected {
        view := view.(scopeCombo := view.scopeCombo.(selected := view.scopeCombo.items[i]));
        GenerateCommand();
      }
    }

    /** The user picks entry `i` of the version combo. */
    method SelectVersion(i: nat)
      requires Valid() && view.versionCombo.enabled && i < |view.versionCombo.items|
      modifies this`view, this`commandText, options
      ensures Valid()
      ensures var v := old(view.versionCombo.items)[i];
        view == if v != old(view.versionCombo.selected)
                then old(view).(versionCombo := old(view.versionCombo).(selected := v),
                                ignoreChecked := PinsVersion(v, tables))
                else old(view)
      ensures view.versionCombo.selected != old(view.versionCombo.selected) ==>
        options.Value() == ReadBack() && commandText == Preview()
      ensures view.versionCombo.selected == old(view.versionCombo.selected) ==>
        options.Value() == old(options.Value()) && commandText == old(commandText)
    {
      SetVersionSelection(view.versionCombo.items[i]);
    }

    /** The user clicks the enabled admin checkbox; its click handler regenerates the preview. */
    method ClickAdmin()
      requires Valid() && view.adminBox.enabled
      modifies this`view, this`commandText, options
      ensures Valid() && view == old(view).(adminBox := old(view.adminBox).(checked := !old(view.adminBox.checked)))
      ensures options.Value() == ReadBack() && commandText == Preview()
    {
      view := view.(adminBox := view.adminBox.(checked := !view.adminBox.checked));
      GenerateCommand();
    }

    /** The user clicks the enabled interactive checkbox; its click handler regenerates the preview. */
    method ClickInteractive()
      requires Valid() && view.interactiveBox.enabled
      modifies this`view, this`commandText, options
      ensures Valid()
      ensures view == old(view).(interactiveBox := old(view.interactiveBox).(checked := !old(view.interactiveBox.checked)))
      ensures options.Value() == ReadBack() && commandText == Preview()
    {
      view := view.(interactiveBox := view.interactiveBox.(checked := !view.interactiveBox.checked));
      GenerateCommand();
    }

    /** The user clicks the enabled skip-hash checkbox; its click handler regenerates the preview. */
    method ClickSkipHash()
      requires Valid() && view.hashBox.enabled
      modifies this`view, this`commandText, options
      ensures Valid() && view == old(view).(hashBox := old(view.hashBox).(checked := !old(view.hashBox.checked)))
      ensures options.Value() == ReadBack() && commandText == Preview()
    {
      view := view.(hashBox := view.hashBox.(checked := !view.hashBox.checked));
      GenerateCommand();
    }

    /**
      The user clicks the skip-minor-updates checkbox.  It has no handler, so the
      options object and the preview keep their values until the next read-back.
     */
    method ClickSkipMinorUpdates()
      requires Valid()
      modifies this`view
      ensures Valid() && view == old(view).(skipMinorChecked := !old(view.skipMinorChecked))
    {
      view := view.(skipMinorChecked := !view.skipMinorChecked);
    }

    /** The user clicks the ignore-updates checkbox, which only a commit acts upon. */
    method ClickIgnoreUpdates()
      requires Valid()
      modifies this`view
      ensures Valid() && view == old(view).(ignoreChecked := !old(view.ignoreChecked))
    {
      view := view.(ignoreChecked := !view.ignoreChecked);
    }

    /** The user edits the parameter text; a change regenerates the preview. */
    method EditParameters(text: string)
      requires Valid()
      modifies this`view, this`commandText, options
      ensures Valid() && view == old(view).(parametersText := text)
      ensures text != old(view.parametersText) ==> options.Value() == ReadBack() && commandText == Preview()
      ensures text == old(view.parametersText) ==>
        options.Value() == old(options.Value()) && commandText == old(commandText)
    {
      if text != view.parametersText {
        view := view.(parametersText := text);
        GenerateCommand();
      }
    }

    /**
      The folder picker returned `folder` ("" when cancelled): a chosen folder
      becomes the location text, and the preview is regenerated either way.
     */
    method SelectDirClick(folder: string)
      requires Valid() && view.locationEnabled
      modifies this`view, this`commandText, options
      ensures Valid() && view == if folder != "" then old(view).(locationText := folder) else old(view)
      ensures options.Value() == ReadBack() && commandText == Preview()
    {
      if folder != "" {
        view := view.(locationText := folder);
      }
      GenerateCommand();
    }

    /** The user resets the location to the package's own, which regenerates the preview. */
    method ResetDirClick()
      requires Valid() && view.locationEnabled
      modifies this`view, this`commandText, options
      ensures Valid() && view == old(view).(locationText := packageInstallLocation)
      ensures options.Value() == ReadBack() && commandText == Preview()
    {
      view := view.(locationText := packageInstallLocation);
      GenerateCommand();
    }
  }
}
