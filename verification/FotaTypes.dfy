/** The update packages of the firmware-over-the-air server. */
module FotaTypes {
  import opened Common

  // Package states (the State node values of the OMA firmware update management object).
  const CLIENT_REQUEST := 5
  const IDLE := 10
  const STARTING_DOWNLOAD := 15
  const DOWNLOAD_FAILED := 20
  const DOWNLOAD_PROGRESSING := 30
  const DOWNLOAD_COMPLETE := 40
  const STARTING_UPDATE := 50
  const UPDATE_PROGRESSING := 60
  const UPDATE_FAILED := 70
  const UPDATE_FAILED_NO_DATA := 80
  const UPDATE_SUCCESSFUL := 90
  const UPDATE_SUCCESSFUL_NO_DATA := 100

  // Result codes.
  const RES_SUCCESSFUL := 200
  const RES_USER_CANCELLED := 401
  const RES_CORRUPTED := 402
  const RES_PACKAGE_MISMATCH := 403
  const RES_UNDEFINED_ERROR := 409
  const RES_UPDATE_FAILED := 410
  const RES_MALFORMED_OR_BAD_URL := 411
  const RES_SERVER_UNAVAILABLE := 412
  const RES_OUT_OF_MEMORY := 501
  const RES_NETWORK_ISSUES := 503
  const RES_CONTENT_MISMATCH := 600
  const RES_INVALID_DESCRIPTOR := 601

  /** The identifier that stands for no package, and the result before any execution. */
  const NOT_FOUND := -1

  const DEFAULT_TRY_COUNT := 4
  const MAXIMUM_TRY_COUNT := 1000

  /** Sizes that print as they are. */
  type PkgSize = n: int | 0 <= n < 0x8000_0000

  /** One row of the table of packages. */
  datatype Package = Package(
    pkgId: int,
    result: int,
    state: int,
    profileId: int,
    url: string,
    name: string,
    version: string,
    tries: int,
    sessionType: int,
    iapId: int,
    pkgSize: PkgSize,
    updateLtr: bool)

  /** The columns that an update can name. */
  datatype Column =
    | Result | State | ProfileId | PkgUrl | PkgName | Version | SmlTryCount | SessionType | IapId | Size | UpdateLtr

  /** The number of report attempts that a setting of the repository asks for; without one the
      default applies. */
  function TryCount(setting: Option<int>): (r: int)
    ensures 2 <= r <= MAXIMUM_TRY_COUNT + 1
    ensures setting.None? || setting.value < 0 ==> r == DEFAULT_TRY_COUNT
    ensures setting.Some? && setting.value >= 0 ==>
              r - 1 == setting.value || (setting.value == 0 && r == 2)
              || (setting.value > MAXIMUM_TRY_COUNT && r == MAXIMUM_TRY_COUNT + 1)
  {
    if setting.None? || setting.value < 0 then DEFAULT_TRY_COUNT
    else if setting.value == 0 then 2
    else if setting.value > MAXIMUM_TRY_COUNT then MAXIMUM_TRY_COUNT + 1
    else setting.value + 1
  }

  /** What a look-up yields when there is no row. */
  function NoPackage(tries: int): Package {
    Package(NOT_FOUND, -1, IDLE, 0, "", "", "", tries, 0, -1, 0, false)
  }
}
