/**
  What the options page learns from the package's manager and from the name
  tables: the operation being configured, the manager's capability flags, and the
  translated labels and architecture/scope name tables.  All of them are inputs
  the page only reads.
 */
module Backend {

  /** The operation the dialog configures. */
  datatype OperationType = Install | Update | Uninstall | None

  /** The processor architectures of the .NET `System.Runtime.InteropServices.Architecture` enum. */
  datatype Architecture = X86 | X64 | Arm | Arm64 | Wasm | S390x | LoongArch64 | Armv6 | Ppc64le | RiscV64

  /** The installation scopes the page offers (the repository's Local/User and Global/Machine). */
  datatype PackageScope = Local | Global

  /** The capability flags of the package's manager that the page consults. */
  datatype Capabilities = Capabilities(
    canRunAsAdmin: bool,
    canRunInteractively: bool,
    canSkipIntegrityChecks: bool,
    supportsCustomArchitectures: bool,
    supportedCustomArchitectures: seq<Architecture>,
    supportsCustomVersions: bool,
    supportsPreRelease: bool,
    supportsCustomScopes: bool,
    supportsCustomLocations: bool)

  /**
    The translation function, the translated labels the page shows, and the
    name tables, whose contents live outside the page: `archNames` and
    `scopeNames` give display names, `scopeNamesNonLang` the canonical
    (untranslated) scope names stored in the options, and the two inverted
    tables map display names back to values.  `defaultLabel` is the combo entry
    that stands for "no explicit architecture or scope", `latestLabel` and
    `preReleaseLabel` the version entries for the newest release and the newest
    pre-release, and `unsetLabel` the location shown when the manager does not
    know where the package lives.
   */
  datatype Tables = Tables(
    translate: string -> string,
    defaultLabel: string,
    latestLabel: string,
    preReleaseLabel: string,
    unsetLabel: string,
    archNames: Architecture -> string,
    invertedArchNames: map<string, Architecture>,
    scopeNames: PackageScope -> string,
    scopeNamesNonLang: PackageScope -> string,
    invertedScopeNames: map<string, PackageScope>)
  {
    /**
      What the page takes for granted about the tables: the labels are the
      translations of "Default", "Latest", "PreRelease" and "Unset or unknown",
      each inverted table is the inverse of its forward table, the canonical
      scope names differ, and the sentinel labels are distinct and are not
      display names of an architecture or a scope.
     */
    ghost predicate WellFormed()
    {
      defaultLabel == translate("Default")
      && latestLabel == translate("Latest")
      && preReleaseLabel == translate("PreRelease")
      && unsetLabel == translate("Unset or unknown")
      && (forall a :: archNames(a) in invertedArchNames && invertedArchNames[archNames(a)] == a)
      && (forall s :: s in invertedArchNames ==> archNames(invertedArchNames[s]) == s)
      && (forall p :: scopeNames(p) in invertedScopeNames && invertedScopeNames[scopeNames(p)] == p)
      && (forall s :: s in invertedScopeNames ==> scopeNames(invertedScopeNames[s]) == s)
      && scopeNamesNonLang(Local) != scopeNamesNonLang(Global)
      && latestLabel != preReleaseLabel
      && defaultLabel !in invertedArchNames
      && defaultLabel !in invertedScopeNames
    }
  }
}
