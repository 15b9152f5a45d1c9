/**
 * The command-line settings: each setting has one fixed option name, and an
 * option name is turned back into its setting by an exact, case-sensitive
 * match; any other name is refused.
 */
module Settings {
  import opened Wrappers

  /** The settings the command line can carry, in declaration order. */
  datatype SettingType =
    | DisplayHelp
    | CsvLocation
    | PrinterConfigPath
    | DiagramTitle
    | XAxisLabel
    | YAxisLabel
    | DiagramType
    | Format
    | VerticalCsv
    | InhibitPrint
    | SvgExport
    | ByteDump
    | LogLevel
    | NoPrintWorkaround

  /** `toString`: the option name the setting was declared with. */
  function Name(t: SettingType): string
  {
    match t
    case DisplayHelp => "help"
    case CsvLocation => "csv-path"
    case PrinterConfigPath => "printer-config-path"
    case DiagramTitle => "title"
    case XAxisLabel => "xLabel"
    case YAxisLabel => "yLabel"
    case DiagramType => "diagram-type"
    case Format => "format"
    case VerticalCsv => "vertical-csv"
    case InhibitPrint => "inhibit-print"
    case SvgExport => "svg-export"
    case ByteDump => "byte-dump"
    case LogLevel => "log-level"
    case NoPrintWorkaround => "no-print-workaround"
  }

  /** The option names of all settings. */
  function Names(): set<string>
  {
    {"help", "csv-path", "printer-config-path", "title", "xLabel", "yLabel", "diagram-type",
     "format", "vertical-csv", "inhibit-print", "svg-export", "byte-dump", "log-level",
     "no-print-workaround"}
  }

  /** `fromString` throws `IllegalArgumentException("Setting not available")` for an unknown name. */
  datatype SettingError = SettingNotAvailable

  /**
   * `fromString`: the setting whose option name is exactly `s`. A setting
   * found has `s` as its name, and a name is refused only when no setting
   * has it.
   */
  function FromString(s: string): (r: Result<SettingType, SettingError>)
    ensures r.Ok? ==> Name(r.value) == s
    ensures r.Ok? <==> s in Names()
  {
    if s == "help" then Ok(DisplayHelp)
    else if s == "csv-path" then Ok(CsvLocation)
    else if s == "printer-config-path" then Ok(PrinterConfigPath)
    else if s == "title" then Ok(DiagramTitle)
    else if s == "xLabel" then Ok(XAxisLabel)
    else if s == "yLabel" then Ok(YAxisLabel)
    else if s == "diagram-type" then Ok(DiagramType)
    else if s == "format" then Ok(Format)
    else if s == "vertical-csv" then Ok(VerticalCsv)
    else if s == "inhibit-print" then Ok(InhibitPrint)
    else if s == "svg-export" then Ok(SvgExport)
    else if s == "byte-dump" then Ok(ByteDump)
    else if s == "log-level" then Ok(LogLevel)
    else if s == "no-print-workaround" then Ok(NoPrintWorkaround)
    else Err(SettingNotAvailable)
  }

  /** Every setting is read back from its own name. */
  lemma FromStringOfName(t: SettingType)
    ensures FromString(Name(t)) == Ok(t)
  {
  }

  /** The names are all of the names `fromString` accepts. */
  lemma NamesAreNames()
    ensures forall t :: Name(t) in Names()
    ensures forall s :: s in Names() ==> exists t :: Name(t) == s
  {
    forall s | s in Names()
      ensures exists t :: Name(t) == s
    {
      assert Name(FromString(s).value) == s;
    }
  }

  /** No two settings share a name, so `toString` is injective. */
  lemma NameInjective(a: SettingType, b: SettingType)
    ensures Name(a) == Name(b) ==> a == b
  {
    FromStringOfName(a);
    FromStringOfName(b);
  }

  /** The names are matched exactly: other capitalisations, and surrounding blanks, are refused. */
  lemma FromStringCaseSensitive()
    ensures FromString("Help").Err? && FromString("HELP").Err?
    ensures FromString("xlabel").Err? && FromString("XLabel").Err?
    ensures FromString(" help").Err? && FromString("").Err?
  {
  }
}
