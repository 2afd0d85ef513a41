/**
 * The settings record of the initializer (init.py): the configuration resolved for one
 * run, the record kept in the settings file between runs, and the license codes.
 */
module Settings {
  import opened Base

  /** The three licenses offered at the license question. */
  datatype License = CcByNcSa | CcBySa | AllRightsReserved

  /** The code stored in the settings file for a license. */
  function Code(license: License): string {
    match license
    case CcByNcSa => "CC-BY-NC-SA-4.0"
    case CcBySa => "CC-BY-SA-4.0"
    case AllRightsReserved => "ARR"
  }

  /** The license for the answer to "Enter choice (1-3)": every answer picks one, unknown ones the first. */
  function LicenseOfChoice(choice: string): (license: License)
    ensures license == CcBySa <==> choice == "2"
    ensures license == AllRightsReserved <==> choice == "3"
    ensures license == CcByNcSa <==> choice != "2" && choice != "3"
  {
    if choice == "1" then CcByNcSa
    else if choice == "2" then CcBySa
    else if choice == "3" then AllRightsReserved
    else CcByNcSa
  }

  /** The menu entry for a stored license code; unknown codes fall back to "1". */
  function ChoiceOfCode(code: string): string {
    if code == "CC-BY-NC-SA-4.0" then "1"
    else if code == "CC-BY-SA-4.0" then "2"
    else if code == "ARR" then "3"
    else "1"
  }

  /**
   * The default offered at the license question: the entry of the stored license when
   * one is stored and non-empty, "1" otherwise. It is always a menu entry.
   */
  function DefaultChoice(stored: Option<string>): (choice: string)
    ensures choice in {"1", "2", "3"}
  {
    if stored.Some? && stored.value != "" then ChoiceOfCode(stored.value) else "1"
  }

  /** A stored license code offers the entry that selects that same license again. */
  lemma DefaultChoiceRoundTrip(license: License)
    ensures LicenseOfChoice(DefaultChoice(Some(Code(license)))) == license
  {
  }

  /** The configuration resolved for one run, every field present. */
  datatype Config = Config(
    title: string,
    authors: seq<string>,
    publisher: string,
    date: string,
    description: string,
    license: License)

  /**
   * The settings file as loaded: each of its six keys may be missing. Keys other than
   * these six and values of other JSON types are not part of this model.
   */
  datatype Stored = Stored(
    title: Option<string>,
    authors: Option<seq<string>>,
    publisher: Option<string>,
    date: Option<string>,
    description: Option<string>,
    license: Option<string>)

  /** The empty settings record: what the defaults are taken from when there is no file. */
  const NoSettings := Stored(None, None, None, None, None, None)

  /** Python's truth value of the loaded dictionary: non-empty. */
  predicate Truthy(stored: Stored) {
    stored != NoSettings
  }

  /** What `save_config` writes for a configuration. */
  function StoredOf(config: Config): (stored: Stored)
    ensures Truthy(stored)
  {
    Stored(Some(config.title), Some(config.authors), Some(config.publisher),
           Some(config.date), Some(config.description), Some(Code(config.license)))
  }
}
