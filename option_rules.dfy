/**
  The rules of the installation-options dialog, stated on values: which controls
  are enabled, how the choice lists are filled and pre-selected from the incoming
  options, how the control values map back to an options record, the
  ignore-updates decision on commit, and the command preview.
 */
module OptionRules {
  import opened Backend
  import opened Serializable
  import opened Text
  import Wrappers

  // ----- Enable predicates ---------------------------------------------------

  /** The skip-hash checkbox: not for uninstalls, and only if the manager can skip checks. */
  predicate HashCheckEnabled(op: OperationType, caps: Capabilities)
  {
    op != Uninstall && caps.canSkipIntegrityChecks
  }

  /** The architecture combo: not for uninstalls, and only if the manager takes an architecture. */
  predicate ArchitectureEnabled(op: OperationType, caps: Capabilities)
  {
    op != Uninstall && caps.supportsCustomArchitectures
  }

  /** The version combo: only when installing, and only if the manager pins versions or pre-releases. */
  predicate VersionEnabled(op: OperationType, caps: Capabilities)
  {
    (op == Install || op == None) && (caps.supportsCustomVersions || caps.supportsPreRelease)
  }

  /** No install-time control is enabled for an uninstall, and updates never choose a version. */
  lemma UninstallDisablesInstallTimeControls(caps: Capabilities)
    ensures !HashCheckEnabled(Uninstall, caps)
    ensures !ArchitectureEnabled(Uninstall, caps)
    ensures !VersionEnabled(Uninstall, caps) && !VersionEnabled(Update, caps)
  {
  }

  /** A control is enabled only when the manager has the matching capability. */
  lemma EnabledControlsNeedCapability(op: OperationType, caps: Capabilities)
    ensures HashCheckEnabled(op, caps) ==> caps.canSkipIntegrityChecks
    ensures ArchitectureEnabled(op, caps) ==> caps.supportsCustomArchitectures
    ensures VersionEnabled(op, caps) ==> caps.supportsCustomVersions || caps.supportsPreRelease
  {
  }

  /** The operation "None" enables the same controls as the install it stands for in the preview. */
  lemma EnablingAgreesWithCommandOperation(op: OperationType, caps: Capabilities)
    ensures HashCheckEnabled(op, caps) == HashCheckEnabled(CommandOperation(op), caps)
    ensures ArchitectureEnabled(op, caps) == ArchitectureEnabled(CommandOperation(op), caps)
    ensures VersionEnabled(op, caps) == VersionEnabled(CommandOperation(op), caps)
  {
  }

  // ----- Choice lists and their initial selection -----------------------------

  /** The display names of `archs`, in order. */
  function ArchitectureNames(archs: seq<Architecture>, t: Tables): seq<string>
  {
    seq(|archs|, k requires 0 <= k < |archs| => t.archNames(archs[k]))
  }

  /** The architecture combo's entries: "Default", then each supported architecture. */
  function ArchitectureItems(caps: Capabilities, t: Tables): seq<string>
  {
    [t.defaultLabel]
    + (if caps.supportsCustomArchitectures then ArchitectureNames(caps.supportedCustomArchitectures, t) else [])
  }

  /** The architecture entry selected at start: the stored one if it is offered, else "Default". */
  function InitialArchitecture(caps: Capabilities, t: Tables, requested: string): string
  {
    if caps.supportsCustomArchitectures && requested in ArchitectureNames(caps.supportedCustomArchitectures, t)
    then requested
    else t.defaultLabel
  }

  /** The scope combo's entries: "Default", then Local and Global when scopes are supported. */
  function ScopeItems(caps: Capabilities, t: Tables): seq<string>
  {
    [t.defaultLabel]
    + (if caps.supportsCustomScopes then [t.translate(t.scopeNames(Local)), t.translate(t.scopeNames(Global))] else [])
  }

  /**
    The scope entry selected at start.  The page tests Local first and Global
    second, so Global wins when both match.  It selects the untranslated display
    name while the entries themselves are translated.
   */
  function InitialScope(caps: Capabilities, t: Tables, requested: string): string
  {
    if !caps.supportsCustomScopes then t.defaultLabel
    else if requested == t.scopeNamesNonLang(Global) then t.scopeNames(Global)
    else if requested == t.scopeNamesNonLang(Local) then t.scopeNames(Local)
    else t.defaultLabel
  }

  /** The version combo's entries before versions are fetched. */
  function VersionItems(caps: Capabilities, t: Tables): seq<string>
  {
    [t.latestLabel] + (if caps.supportsPreRelease then [t.preReleaseLabel] else [])
  }

  /** The version entry selected at start. */
  function InitialVersion(caps: Capabilities, t: Tables, preRelease: bool): string
  {
    if caps.supportsPreRelease && preRelease then t.preReleaseLabel else t.latestLabel
  }

  /** The selection after appending fetched versions: `target` if it was fetched. */
  function FetchedSelection(selected: string, fetched: seq<string>, target: string): string
  {
    if target in fetched then target else selected
  }

  /** The value the ignore-updates checkbox takes when the version selection changes. */
  predicate PinsVersion(selected: string, t: Tables)
  {
    selected !in [t.latestLabel, t.preReleaseLabel, ""]
  }

  /** The location the text box falls back to: the manager's answer, or the "unset" label. */
  function PackageInstallLocation(found: Wrappers.Option<string>, t: Tables): string
  {
    match found
    case Some(path) => path
    case None => t.unsetLabel
  }

  /** The location text shown at start. */
  function InitialLocationText(requested: string, packageLocation: string): string
  {
    if requested == "" then packageLocation else requested
  }

  /** The parameter text shown at start (the text box starts empty). */
  function InitialParametersText(parameters: seq<string>): string
  {
    if |parameters| != 0 then Join(parameters, ' ') else ""
  }

  // ----- From control values back to options ----------------------------------

  /** The values of the page's input controls that the options are read from. */
  datatype Controls = Controls(
    adminChecked: bool,
    interactiveChecked: bool,
    hashChecked: bool,
    architecture: string,
    scope: string,
    locationText: string,
    parametersText: string,
    version: string,
    skipMinorChecked: bool)

  /** The controls as the constructor leaves them for the incoming options `o`. */
  function InitialControls(caps: Capabilities, t: Tables, o: OptionValues, packageLocation: string): Controls
  {
    Controls(o.runAsAdministrator, o.interactiveInstallation, o.skipHashCheck,
             InitialArchitecture(caps, t, o.architecture),
             InitialScope(caps, t, o.installationScope),
             InitialLocationText(o.customInstallLocation, packageLocation),
             InitialParametersText(o.customParameters),
             InitialVersion(caps, t, o.preRelease),
             o.skipMinorUpdates)
  }

  /** The stored architecture: the selection if it names an architecture, else "". */
  function ArchitectureValue(selected: string, t: Tables): (arch: string)
    ensures arch == "" || arch == selected
    ensures selected in t.invertedArchNames ==> arch == selected
    ensures arch != "" ==> arch in t.invertedArchNames
  {
    if selected in t.invertedArchNames then selected else ""
  }

  /** The stored scope: the canonical name of the selected scope, else "". */
  function ScopeValue(selected: string, t: Tables): (scope: string)
    ensures selected !in t.invertedScopeNames ==> scope == ""
    ensures selected in t.invertedScopeNames ==> scope == t.scopeNamesNonLang(t.invertedScopeNames[selected])
    ensures scope in {"", t.scopeNamesNonLang(Local), t.scopeNamesNonLang(Global)}
  {
    if selected in t.invertedScopeNames then
      var p := t.invertedScopeNames[selected];
      assert p == Local || p == Global;
      t.scopeNamesNonLang(p)
    else ""
  }

  /** The stored location: "" when the text is the package's own location. */
  function LocationValue(text: string, packageLocation: string): string
  {
    if text == packageLocation then "" else text
  }

  /** The stored pre-release flag. */
  predicate PreReleaseValue(selected: string, t: Tables)
  {
    selected == t.preReleaseLabel
  }

  /** The stored version: the selection unless it is a sentinel. */
  function VersionValue(selected: string, t: Tables): string
  {
    if selected != t.preReleaseLabel && selected != t.latestLabel then selected else ""
  }

  /** The options record read back from the controls. */
  function Collect(c: Controls, packageLocation: string, t: Tables): OptionValues
  {
    OptionValues(c.adminChecked, c.interactiveChecked, c.hashChecked,
                 ArchitectureValue(c.architecture, t),
                 ScopeValue(c.scope, t),
                 LocationValue(c.locationText, packageLocation),
                 Split(c.parametersText, ' '),
                 PreReleaseValue(c.version, t),
                 VersionValue(c.version, t),
                 c.skipMinorChecked)
  }

  /**
    The options read back never pin a version together with the pre-release
    flag, and their parameter list is the text split at single spaces: no element
    holds a space, and joining them with spaces gives the text back.
   */
  lemma CollectedOptionsAreConsistent(c: Controls, packageLocation: string, t: Tables)
    ensures var o := Collect(c, packageLocation, t);
      (o.preRelease ==> o.version == "")
      && (o.version != "" ==> o.version == c.version)
      && (forall i :: 0 <= i < |o.customParameters| ==> ' ' !in o.customParameters[i])
      && Join(o.customParameters, ' ') == c.parametersText
  {
    JoinOfSplit(c.parametersText, ' ');
  }

  /** A checkbox's value is stored whether or not the control is enabled. */
  lemma CheckboxesPassThrough(c: Controls, packageLocation: string, t: Tables)
    ensures Collect(c, packageLocation, t).runAsAdministrator == c.adminChecked
    ensures Collect(c, packageLocation, t).interactiveInstallation == c.interactiveChecked
    ensures Collect(c, packageLocation, t).skipHashCheck == c.hashChecked
    ensures Collect(c, packageLocation, t).skipMinorUpdates == c.skipMinorChecked
  {
  }

  /** An entry of the architecture combo is stored as "" or as the name of a supported architecture. */
  lemma CollectedArchitectureIsSupported(caps: Capabilities, t: Tables, selected: string)
    requires t.WellFormed()
    requires selected in ArchitectureItems(caps, t)
    ensures var arch := ArchitectureValue(selected, t);
      arch == "" || (caps.supportsCustomArchitectures
                     && exists a :: a in caps.supportedCustomArchitectures && t.archNames(a) == arch)
  {
    if selected in t.invertedArchNames {
      assert selected != t.defaultLabel;
      var names := ArchitectureNames(caps.supportedCustomArchitectures, t);
      assert caps.supportsCustomArchitectures && selected in names;
      var k :| 0 <= k < |names| && names[k] == selected;
      assert caps.supportedCustomArchitectures[k] in caps.supportedCustomArchitectures;
    }
  }

  /** Opening the dialog and reading it back keeps an offered architecture and clears any other. */
  lemma ArchitectureRoundTrip(caps: Capabilities, t: Tables, requested: string)
    requires t.WellFormed()
    ensures ArchitectureValue(InitialArchitecture(caps, t, requested), t)
         == if caps.supportsCustomArchitectures && requested in ArchitectureNames(caps.supportedCustomArchitectures, t)
            then requested else ""
  {
    var names := ArchitectureNames(caps.supportedCustomArchitectures, t);
    if caps.supportsCustomArchitectures && requested in names {
      var k :| 0 <= k < |names| && names[k] == requested;
      assert t.archNames(caps.supportedCustomArchitectures[k]) == requested;
    }
  }

  /** Opening the dialog and reading it back keeps a canonical scope name and clears any other. */
  lemma ScopeRoundTrip(caps: Capabilities, t: Tables, requested: string)
    requires t.WellFormed()
    ensures ScopeValue(InitialScope(caps, t, requested), t)
         == if caps.supportsCustomScopes
               && (requested == t.scopeNamesNonLang(Local) || requested == t.scopeNamesNonLang(Global))
            then requested else ""
  {
    assert t.invertedScopeNames[t.scopeNames(Local)] == Local;
    assert t.invertedScopeNames[t.scopeNames(Global)] == Global;
  }

  /**
    Reading back a scope entry the user picks: "Default" stores "".  The Local
    and Global entries are translated names, and the read-back looks them up
    among the untranslated ones, so an entry is stored as its canonical scope
    name when its translation leaves the name unchanged, and as "" when the
    translated name is no scope display name.
   */
  lemma PickedScopeReadBack(caps: Capabilities, t: Tables, k: nat)
    requires t.WellFormed()
    requires k < |ScopeItems(caps, t)|
    ensures k == 0 ==> ScopeValue(ScopeItems(caps, t)[k], t) == ""
    ensures k > 0 ==>
      var p := if k == 1 then Local else Global;
      var entry := t.translate(t.scopeNames(p));
      ScopeItems(caps, t)[k] == entry
      && (entry == t.scopeNames(p) ==> ScopeValue(entry, t) == t.scopeNamesNonLang(p))
      && (entry !in t.invertedScopeNames ==> ScopeValue(entry, t) == "")
  {
    if k > 0 {
      var p := if k == 1 then Local else Global;
      assert t.invertedScopeNames[t.scopeNames(p)] == p;
    }
  }

  /** The location is stored verbatim unless it equals the package's own (or "unset") location. */
  lemma LocationRoundTrip(requested: string, packageLocation: string)
    ensures LocationValue(InitialLocationText(requested, packageLocation), packageLocation)
         == if requested == packageLocation then "" else requested
  {
  }

  /** Stored parameters without spaces come back unchanged; an empty list comes back as [""]. */
  lemma ParametersRoundTrip(parameters: seq<string>)
    requires forall i :: 0 <= i < |parameters| ==> ' ' !in parameters[i]
    ensures |parameters| != 0 ==> Split(InitialParametersText(parameters), ' ') == parameters
    ensures |parameters| == 0 ==> Split(InitialParametersText(parameters), ' ') == [""]
  {
    if |parameters| != 0 {
      SplitOfJoin(parameters, ' ');
    }
  }

  /** A pinned version and the pre-release flag are never stored together. */
  lemma VersionAndPreReleaseExclusive(selected: string, t: Tables)
    ensures !(PreReleaseValue(selected, t) && VersionValue(selected, t) != "")
    ensures PreReleaseValue(selected, t) || selected == t.latestLabel ==> VersionValue(selected, t) == ""
  {
  }

  /**
    After versions are fetched with the stored version as target, the options read
    back pin that version when it was fetched; otherwise they keep the
    pre-release choice the dialog opened with.
   */
  lemma FetchedVersionRoundTrip(caps: Capabilities, t: Tables, o: OptionValues, fetched: seq<string>)
    requires t.WellFormed()
    requires o.version != t.latestLabel && o.version != t.preReleaseLabel
    ensures var selected := FetchedSelection(InitialVersion(caps, t, o.preRelease), fetched, o.version);
      VersionValue(selected, t) == (if o.version in fetched then o.version else "")
      && PreReleaseValue(selected, t) == (o.version !in fetched && caps.supportsPreRelease && o.preRelease)
  {
  }

  /**
    Reading the controls back right after the constructor (its own preview does
    this) keeps the checkboxes, normalises architecture, scope, location and
    parameters, keeps the pre-release choice, and clears the stored version,
    because only the sentinel versions are listed yet.
   */
  lemma {:induction false} ConstructorPreviewNormalises(caps: Capabilities, t: Tables, o: OptionValues, packageLocation: string)
    requires t.WellFormed()
    requires forall i :: 0 <= i < |o.customParameters| ==> ' ' !in o.customParameters[i]
    ensures var r := Collect(InitialControls(caps, t, o, packageLocation), packageLocation, t);
      r.runAsAdministrator == o.runAsAdministrator
      && r.interactiveInstallation == o.interactiveInstallation
      && r.skipHashCheck == o.skipHashCheck
      && r.skipMinorUpdates == o.skipMinorUpdates
      && r.architecture == (if caps.supportsCustomArchitectures
                               && o.architecture in ArchitectureNames(caps.supportedCustomArchitectures, t)
                            then o.architecture else "")
      && r.installationScope == (if caps.supportsCustomScopes
                                    && (o.installationScope == t.scopeNamesNonLang(Local)
                                        || o.installationScope == t.scopeNamesNonLang(Global))
                                 then o.installationScope else "")
      && r.customInstallLocation == (if o.customInstallLocation == packageLocation then "" else o.customInstallLocation)
      && r.customParameters == (if |o.customParameters| != 0 then o.customParameters else [""])
      && r.preRelease == (caps.supportsPreRelease && o.preRelease)
      && r.version == ""
  {
    ArchitectureRoundTrip(caps, t, o.architecture);
    ScopeRoundTrip(caps, t, o.installationScope);
    LocationRoundTrip(o.customInstallLocation, packageLocation);
    ParametersRoundTrip(o.customParameters);
  }

  /**
    As written, the fetched versions are matched against the options' version
    after the constructor's preview has already cleared it, so a pinned version
    that the manager lists is not selected.
   */
  lemma PinnedVersionNotReselectedAsWritten(caps: Capabilities, t: Tables, o: OptionValues, packageLocation: string)
    requires o.version != "" && o.version != t.latestLabel && o.version != t.preReleaseLabel
    ensures var target := Collect(InitialControls(caps, t, o, packageLocation), packageLocation, t).version;
      var selected := FetchedSelection(InitialVersion(caps, t, o.preRelease), [o.version], target);
      target == "" && selected != o.version && VersionValue(selected, t) == ""
  {
  }

  /**
    Matched against the version the dialog was opened with, a pinned version that
    the manager lists is selected and read back.
   */
  lemma PinnedVersionReselected(caps: Capabilities, t: Tables, o: OptionValues, fetched: seq<string>)
    requires o.version in fetched
    requires o.version != t.latestLabel && o.version != t.preReleaseLabel
    ensures var selected := FetchedSelection(InitialVersion(caps, t, o.preRelease), fetched, o.version);
      selected == o.version && VersionValue(selected, t) == o.version && !PreReleaseValue(selected, t)
  {
  }

  // ----- Ignore-updates decision on commit ------------------------------------

  /** The write to the ignored-updates store that a commit issues. */
  datatype IgnoreAction = NoWrite | AddWildcard | RemoveMarker

  /**
    The commit's decision: nothing unless asked to update; add the "*" marker when
    the box is checked; otherwise remove the marker only if it is "*".
   */
  function IgnoreUpdatesAction(updateIgnoredUpdates: bool, checked: bool, currentMarker: string): IgnoreAction
  {
    if !updateIgnoredUpdates then NoWrite
    else if checked then AddWildcard
    else if currentMarker == "*" then RemoveMarker
    else NoWrite
  }

  /** The store's marker after a write, taking an added marker as "*" and a removed one as "". */
  function MarkerAfter(marker: string, action: IgnoreAction): string
  {
    match action
    case NoWrite => marker
    case AddWildcard => "*"
    case RemoveMarker => ""
  }

  /** The preview's read-back never writes the store. */
  lemma PreviewNeverWritesIgnoreState(checked: bool, marker: string)
    ensures IgnoreUpdatesAction(false, checked, marker) == NoWrite
  {
  }

  /** A checked box adds the marker even when it is already "*"; an unchecked one removes only "*". */
  lemma CommitDecision(checked: bool, marker: string)
    ensures checked ==> IgnoreUpdatesAction(true, checked, marker) == AddWildcard
    ensures !checked ==> (IgnoreUpdatesAction(true, checked, marker) == RemoveMarker <==> marker == "*")
    ensures !checked && marker != "*" ==> IgnoreUpdatesAction(true, checked, marker) == NoWrite
  {
  }

  /** After a commit the package ignores all updates exactly when the box was checked. */
  lemma CommitMakesMarkerMatchCheckbox(checked: bool, marker: string)
    ensures (MarkerAfter(marker, IgnoreUpdatesAction(true, checked, marker)) == "*") == checked
  {
  }

  /** Committing twice with the same checkbox leaves the store as one commit does. */
  lemma RepeatedCommitIsStable(checked: bool, marker: string)
    ensures var once := MarkerAfter(marker, IgnoreUpdatesAction(true, checked, marker));
      MarkerAfter(once, IgnoreUpdatesAction(true, checked, once)) == once
  {
  }

  // ----- Command preview -------------------------------------------------------

  /** The operation the command is generated for: "None" becomes Install. */
  function CommandOperation(op: OperationType): (r: OperationType)
    ensures r != None
    ensures op == None ==> r == Install
    ensures op != None ==> r == op
  {
    if op == None then Install else op
  }

  /** The preview text: the executable's name, a space, and the arguments joined by spaces. */
  function CommandPreview(friendlyName: string, argv: seq<string>): string
  {
    friendlyName + " " + Join(argv, ' ')
  }

  /** The preview starts with the name and a space, and splitting the rest gives the arguments back. */
  lemma PreviewRecoversArguments(friendlyName: string, argv: seq<string>)
    requires |argv| >= 1
    requires forall i :: 0 <= i < |argv| ==> ' ' !in argv[i]
    ensures var p := CommandPreview(friendlyName, argv);
      |p| > |friendlyName| && p[..|friendlyName| + 1] == friendlyName + " "
      && Split(p[|friendlyName| + 1..], ' ') == argv
  {
    var p := CommandPreview(friendlyName, argv);
    assert p[|friendlyName| + 1..] == Join(argv, ' ');
    SplitOfJoin(argv, ' ');
  }
}
