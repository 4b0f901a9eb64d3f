/**
  The persisted installation options the dialog edits.  The page holds a
  reference to the caller's object and assigns its fields in place.
 */
module Serializable {

  /** The value of the option fields the page reads and writes. */
  datatype OptionValues = OptionValues(
    runAsAdministrator: bool,
    interactiveInstallation: bool,
    skipHashCheck: bool,
    architecture: string,
    installationScope: string,
    customInstallLocation: string,
    customParameters: seq<string>,
    preRelease: bool,
    version: string,
    skipMinorUpdates: bool)

  class SerializableInstallationOptions {
    var runAsAdministrator: bool
    var interactiveInstallation: bool
    var skipHashCheck: bool
    var architecture: string
    var installationScope: string
    var customInstallLocation: string
    var customParameters: seq<string>
    var preRelease: bool
    var version: string
    var skipMinorUpdates: bool

    /** The current field values as one record. */
    function Value(): OptionValues
      reads this
    {
      OptionValues(runAsAdministrator, interactiveInstallation, skipHashCheck, architecture,
                   installationScope, customInstallLocation, customParameters, preRelease,
                   version, skipMinorUpdates)
    }

    /** Assigns every field from `v`. */
    method Assign(v: OptionValues)
      modifies this
      ensures Value() == v
    {
      runAsAdministrator := v.runAsAdministrator;
      interactiveInstallation := v.interactiveInstallation;
      skipHashCheck := v.skipHashCheck;
      architecture := v.architecture;
      installationScope := v.installationScope;
      customInstallLocation := v.customInstallLocation;
      customParameters := v.customParameters;
      preRelease := v.preRelease;
      version := v.version;
      skipMinorUpdates := v.skipMinorUpdates;
    }
  }
}
