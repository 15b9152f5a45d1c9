/**
 * The validator of configuration properties read from Java properties files:
 * the table of known printer and format properties with the check each
 * value must pass, the splitting of a key into prefix, format name and
 * property name, and the completeness check against the required names.
 *
 * Parsing a `double`, probing the file system, the printer capability
 * enumeration and the print service lookup are not part of this model; they
 * enter as the functions of an `Environment`.
 */
module ConfigValidation {
  import opened Wrappers
  import opened JavaNumbers

  // ---------------------------------------------------------------------
  // Value checks
  // ---------------------------------------------------------------------

  /** What `Double.parseDouble` can answer, when it does not throw. */
  datatype JavaDouble = NaN | NegativeInfinity | PositiveInfinity | Finite(value: real)

  /** The checks that depend on library parsing, files or printers. */
  datatype Environment = Environment(
    parseDouble: string -> Option<JavaDouble>,
    fileExists: string -> bool,
    isPrinterMode: string -> bool,
    printerExists: string -> bool)

  /** The predicates a property's value must satisfy, and their combinations. */
  datatype Requirement =
    | IsEmpty
    | Not(negated: Requirement)
    | Both(first: Requirement, second: Requirement)
    | IsInteger
    | IsDouble
    | IsBoolean
    | IsPositive
    | FileExists
    | IsEnum
    | PrinterExists

  predicate IsDigit(c: char)
  {
    '0' <= c <= '9'
  }

  predicate AllDigits(s: string)
  {
    forall i :: 0 <= i < |s| ==> IsDigit(s[i])
  }

  /** The regular expression `-?[0-9]+`, matched against the whole value. */
  predicate IntegerSyntax(value: string)
  {
    if |value| > 0 && value[0] == '-' then |value| > 1 && AllDigits(value[1..])
    else |value| > 0 && AllDigits(value)
  }

  /** The number a string of decimal digits denotes. */
  function DigitsValue(digits: string): (n: nat)
    requires AllDigits(digits)
  {
    if digits == [] then 0
    else 10 * DigitsValue(digits[..|digits| - 1]) + (digits[|digits| - 1] - '0') as int
  }

  /** The number a value of integer syntax denotes. */
  function IntegerValue(value: string): int
    requires IntegerSyntax(value)
  {
    if value[0] == '-' then 0 - DigitsValue(value[1..]) else DigitsValue(value)
  }

  /** `checkIfInteger`: integer syntax, and `Integer.parseInt` does not overflow. */
  predicate CheckIfInteger(value: string)
  {
    IntegerSyntax(value) && IntMin <= IntegerValue(value) <= IntMax
  }

  /** The decimal digits of a natural number, without leading zeros. */
  function DecimalDigits(n: nat): (s: string)
    ensures |s| > 0 && AllDigits(s)
  {
    var last := [('0' as int + n % 10) as char];
    if n < 10 then last else DecimalDigits(n / 10) + last
  }

  /** The decimal notation of an integer, with a '-' for negative numbers. */
  function Decimal(n: int): string
  {
    if n < 0 then "-" + DecimalDigits(-n) else DecimalDigits(n)
  }

  lemma {:induction false} DigitsOfDecimal(n: nat)
    ensures DigitsValue(DecimalDigits(n)) == n
  {
    var s := DecimalDigits(n);
    if n >= 10 {
      DigitsOfDecimal(n / 10);
      assert s[..|s| - 1] == DecimalDigits(n / 10);
    }
  }

  /** Every integer written in decimal denotes itself, and passes `checkIfInteger` iff it is in the int range. */
  lemma IntegerRoundTrip(n: int)
    ensures IntegerSyntax(Decimal(n)) && IntegerValue(Decimal(n)) == n
    ensures CheckIfInteger(Decimal(n)) <==> IntMin <= n <= IntMax
  {
    var s := Decimal(n);
    if n < 0 {
      var digits := DecimalDigits(-n);
      DigitsOfDecimal(-n);
      assert s == "-" + digits;
      assert s[0] == '-' && s[1..] == digits;
      assert IntegerSyntax(s);
      assert IntegerValue(s) == 0 - DigitsValue(digits);
    } else {
      DigitsOfDecimal(n);
      assert s == DecimalDigits(n);
      assert IsDigit(s[0]);
      assert IntegerValue(s) == DigitsValue(s);
    }
  }

  /** A sign alone, a '+', a decimal point and the empty string are not integers. */
  lemma IntegerExamples()
    ensures !CheckIfInteger("") && !CheckIfInteger("-") && !CheckIfInteger("+1") && !CheckIfInteger("1.0")
  {
    assert "1.0"[1] == '.';
  }

  /** A letter in the ASCII upper case range lowered; any other character unchanged. */
  function AsciiLower(c: char): char
  {
    if 'A' <= c <= 'Z' then (c as int - 'A' as int + 'a' as int) as char else c
  }

  /** The regular expression's case-insensitive comparison, character by character. */
  predicate EqualsIgnoreCase(a: string, b: string)
  {
    |a| == |b| && forall i :: 0 <= i < |a| ==> AsciiLower(a[i]) == AsciiLower(b[i])
  }

  /** `checkIfBoolean`: "true" or "false" in any mix of upper and lower case. */
  predicate CheckIfBoolean(value: string)
  {
    EqualsIgnoreCase(value, "true") || EqualsIgnoreCase(value, "false")
  }

  /** The string with every ASCII letter lowered. */
  function LowerCase(s: string): (t: string)
    ensures |t| == |s|
  {
    if s == [] then [] else LowerCase(s[..|s| - 1]) + [AsciiLower(s[|s| - 1])]
  }

  lemma {:induction false} LowerCaseAt(s: string, i: int)
    requires 0 <= i < |s|
    ensures LowerCase(s)[i] == AsciiLower(s[i])
  {
    if i < |s| - 1 {
      LowerCaseAt(s[..|s| - 1], i);
    }
  }

  /** Against a string with no upper case letters, comparing ignoring case is comparing the lowered string. */
  lemma LowerCaseEquals(value: string, t: string)
    requires forall i :: 0 <= i < |t| ==> AsciiLower(t[i]) == t[i]
    ensures EqualsIgnoreCase(value, t) <==> LowerCase(value) == t
  {
    forall i | 0 <= i < |value| {
      LowerCaseAt(value, i);
    }
    if LowerCase(value) == t {
      assert forall i :: 0 <= i < |value| ==> AsciiLower(value[i]) == t[i];
    }
  }

  /** A value passes `checkIfBoolean` iff, lowered, it is "true" or "false". */
  lemma BooleanByLowerCase(value: string)
    ensures CheckIfBoolean(value) <==> LowerCase(value) == "true" || LowerCase(value) == "false"
  {
    LowerCaseEquals(value, "true");
    LowerCaseEquals(value, "false");
  }

  lemma BooleanExamples()
    ensures CheckIfBoolean("true") && CheckIfBoolean("FALSE") && CheckIfBoolean("True")
    ensures !CheckIfBoolean("") && !CheckIfBoolean("yes") && !CheckIfBoolean("1") && !CheckIfBoolean(" true")
  {
    assert " true"[0] == ' ' && AsciiLower(' ') != AsciiLower('f');
  }

  /** `checkIfPositive`: the value parses as a double that is at least zero. */
  predicate CheckIfPositive(value: string, env: Environment)
  {
    match env.parseDouble(value)
    case Some(Finite(x)) => x >= 0.0
    case Some(PositiveInfinity) => true
    case _ => false
  }

  /** Zero counts as positive; a negative number and a malformed value do not. */
  lemma PositiveAcceptsZero(value: string, env: Environment)
    ensures env.parseDouble(value) == Some(Finite(0.0)) ==> CheckIfPositive(value, env)
    ensures (exists x :: x < 0.0 && env.parseDouble(value) == Some(Finite(x))) ==> !CheckIfPositive(value, env)
    ensures env.parseDouble(value) == None ==> !CheckIfPositive(value, env)
  {
  }

  /** `Predicate.test` for a requirement; `and` tests the second predicate only when the first holds. */
  predicate Test(requirement: Requirement, value: string, env: Environment)
  {
    match requirement
    case IsEmpty => value == ""
    case Not(r) => !Test(r, value, env)
    case Both(a, b) => Test(a, value, env) && Test(b, value, env)
    case IsInteger => CheckIfInteger(value)
    case IsDouble => env.parseDouble(value).Some?
    case IsBoolean => CheckIfBoolean(value)
    case IsPositive => CheckIfPositive(value, env)
    case FileExists => env.fileExists(value)
    case IsEnum => env.isPrinterMode(value)
    case PrinterExists => env.printerExists(value)
  }

  const NotEmpty: Requirement := Not(IsEmpty)
  const PositiveInteger: Requirement := Both(IsInteger, IsPositive)
  const PositiveDouble: Requirement := Both(IsDouble, IsPositive)

  // ---------------------------------------------------------------------
  // The definition tables
  // ---------------------------------------------------------------------

  /** The two kinds of property, each with its own table and list of required names. */
  datatype Kind = Printer | Format

  class Validator {
    var printerDefinitions: map<string, Requirement>
    var formatDefinitions: map<string, Requirement>
    var requiredPrinterProperties: seq<string>
    var requiredFormatProperties: seq<string>

    /** Every required name is defined and is required once. */
    predicate Valid()
      reads this
    {
      && (forall i :: 0 <= i < |requiredPrinterProperties| ==> requiredPrinterProperties[i] in printerDefinitions)
      && (forall i :: 0 <= i < |requiredFormatProperties| ==> requiredFormatProperties[i] in formatDefinitions)
      && Distinct(requiredPrinterProperties)
      && Distinct(requiredFormatProperties)
    }

    /**
     * `defineProperty`: the name's requirement replaces any earlier one in the
     * table of its kind, and a required name is appended to that kind's list.
     */
    method DefineProperty(kind: Kind, name: string, validation: Requirement, required: bool)
      modifies this
      ensures kind == Printer ==>
        && printerDefinitions == old(printerDefinitions)[name := validation]
        && requiredPrinterProperties == (if required then old(requiredPrinterProperties) + [name] else old(requiredPrinterProperties))
        && formatDefinitions == old(formatDefinitions) && requiredFormatProperties == old(requiredFormatProperties)
      ensures kind == Format ==>
        && formatDefinitions == old(formatDefinitions)[name := validation]
        && requiredFormatProperties == (if required then old(requiredFormatProperties) + [name] else old(requiredFormatProperties))
        && printerDefinitions == old(printerDefinitions) && requiredPrinterProperties == old(requiredPrinterProperties)
    {
      if kind == Printer {
        printerDefinitions := printerDefinitions[name := validation];
        if required {
          requiredPrinterProperties := requiredPrinterProperties + [name];
        }
      } else {
        formatDefinitions := formatDefinitions[name := validation];
        if required {
          requiredFormatProperties := requiredFormatProperties + [name];
        }
      }
    }

    /** The constructor: the nineteen printer and six format properties with their checks. */
    constructor ()
      ensures printerDefinitions == PrinterTable() && requiredPrinterProperties == RequiredPrinterList()
      ensures formatDefinitions == FormatTable() && requiredFormatProperties == FormatList()
      ensures Valid()
    {
      printerDefinitions, formatDefinitions := map[], map[];
      requiredPrinterProperties, requiredFormatProperties := [], [];
      new;
      DefineDeviceProperties();
      DefineConstraintProperties();
      DefineRasterProperties();
      DefineFormatProperties();
      TablesHoldRequired();
      RequiredListsAppended();
    }

    /** The printer device: its name, mode, braille table and floating-dot support. */
    method DefineDeviceProperties()
      modifies this
      ensures printerDefinitions == old(printerDefinitions)
        ["name" := Both(NotEmpty, PrinterExists)]
        ["mode" := Both(NotEmpty, IsEnum)]
        ["brailletable" := FileExists]
        ["floatingDot.support" := IsBoolean]
        ["floatingDot.resolution" := PositiveDouble]
      ensures requiredPrinterProperties == old(requiredPrinterProperties)
        + ["name"] + ["mode"] + ["brailletable"]
        + ["floatingDot.support"]
      ensures formatDefinitions == old(formatDefinitions) && requiredFormatProperties == old(requiredFormatProperties)
    {
      DefineProperty(Printer, "name", Both(NotEmpty, PrinterExists), true);
      DefineProperty(Printer, "mode", Both(NotEmpty, IsEnum), true);
      DefineProperty(Printer, "brailletable", FileExists, true);
      DefineProperty(Printer, "floatingDot.support", IsBoolean, true);
      DefineProperty(Printer, "floatingDot.resolution", PositiveDouble, false);
    }

    /** The printable area's constraints, in millimetres and in dots. */
    method DefineConstraintProperties()
      modifies this
      ensures printerDefinitions == old(printerDefinitions)
        ["constraint.top" := PositiveDouble]
        ["constraint.left" := PositiveDouble]
        ["constraint.width" := PositiveDouble]
        ["constraint.height" := PositiveDouble]
        ["raster.constraint.top" := PositiveInteger]
        ["raster.constraint.left" := PositiveInteger]
        ["raster.constraint.width" := PositiveInteger]
        ["raster.constraint.height" := PositiveInteger]
      ensures requiredPrinterProperties == old(requiredPrinterProperties)
        + ["constraint.top"] + ["constraint.left"] + ["raster.constraint.top"]
        + ["raster.constraint.left"]
      ensures formatDefinitions == old(formatDefinitions) && requiredFormatProperties == old(requiredFormatProperties)
    {
      DefineProperty(Printer, "constraint.top", PositiveDouble, true);
      DefineProperty(Printer, "constraint.left", PositiveDouble, true);
      DefineProperty(Printer, "constraint.width", PositiveDouble, false);
      DefineProperty(Printer, "constraint.height", PositiveDouble, false);
      DefineProperty(Printer, "raster.constraint.top", PositiveInteger, true);
      DefineProperty(Printer, "raster.constraint.left", PositiveInteger, true);
      DefineProperty(Printer, "raster.constraint.width", PositiveInteger, false);
      DefineProperty(Printer, "raster.constraint.height", PositiveInteger, false);
    }

    /** The braille raster: its type, dot and cell distances and dot diameter. */
    method DefineRasterProperties()
      modifies this
      ensures printerDefinitions == old(printerDefinitions)
        ["raster.type" := NotEmpty]
        ["raster.dotDistance.horizontal" := PositiveDouble]
        ["raster.dotDistance.vertical" := PositiveDouble]
        ["raster.cellDistance.horizontal" := PositiveDouble]
        ["raster.cellDistance.vertical" := PositiveDouble]
        ["raster.dotDiameter" := PositiveDouble]
      ensures requiredPrinterProperties == old(requiredPrinterProperties)
        + ["raster.type"] + ["raster.dotDistance.horizontal"] + ["raster.dotDistance.vertical"]
        + ["raster.cellDistance.horizontal"] + ["raster.cellDistance.vertical"] + ["raster.dotDiameter"]
      ensures formatDefinitions == old(formatDefinitions) && requiredFormatProperties == old(requiredFormatProperties)
    {
      DefineProperty(Printer, "raster.type", NotEmpty, true);
      DefineProperty(Printer, "raster.dotDistance.horizontal", PositiveDouble, true);
      DefineProperty(Printer, "raster.dotDistance.vertical", PositiveDouble, true);
      DefineProperty(Printer, "raster.cellDistance.horizontal", PositiveDouble, true);
      DefineProperty(Printer, "raster.cellDistance.vertical", PositiveDouble, true);
      DefineProperty(Printer, "raster.dotDiameter", PositiveDouble, true);
    }

    /** The format properties: page size and margins. */
    method DefineFormatProperties()
      modifies this
      ensures formatDefinitions == old(formatDefinitions)
        ["page.width" := PositiveInteger]
        ["page.height" := PositiveInteger]
        ["margin.top" := PositiveInteger]
        ["margin.right" := PositiveInteger]
        ["margin.bottom" := PositiveInteger]
        ["margin.left" := PositiveInteger]
      ensures requiredFormatProperties == old(requiredFormatProperties)
        + ["page.width"] + ["page.height"] + ["margin.top"]
        + ["margin.right"] + ["margin.bottom"] + ["margin.left"]
      ensures printerDefinitions == old(printerDefinitions) && requiredPrinterProperties == old(requiredPrinterProperties)
    {
      DefineProperty(Format, "page.width", PositiveInteger, true);
      DefineProperty(Format, "page.height", PositiveInteger, true);
      DefineProperty(Format, "margin.top", PositiveInteger, true);
      DefineProperty(Format, "margin.right", PositiveInteger, true);
      DefineProperty(Format, "margin.bottom", PositiveInteger, true);
      DefineProperty(Format, "margin.left", PositiveInteger, true);
    }

    /** The requirement table of a kind. */
    function Definitions(kind: Kind): map<string, Requirement>
      reads this
    {
      if kind == Printer then printerDefinitions else formatDefinitions
    }

    /**
     * `validationLookup`: an unknown name and a value its check rejects are
     * errors; otherwise the property is valid.
     */
    function ValidationLookup(kind: Kind, name: string, value: string, env: Environment): (r: Result<(), ValidationError>)
      reads this
      ensures r.Ok? <==> name in Definitions(kind) && Test(Definitions(kind)[name], value, env)
      ensures r.Err? && name !in Definitions(kind) ==> r.error == InvalidPropertyName(name)
      ensures r.Err? && name in Definitions(kind) ==> r.error == InvalidValue(name, value)
    {
      var table := Definitions(kind);
      if name !in table then Err(InvalidPropertyName(name))
      else if !Test(table[name], value, env) then Err(InvalidValue(name, value))
      else Ok(())
    }

    /**
     * `validate`: a key "printer.<name>" names a printer property and a key
     * "format.<format>.<name>" a property of that format; the name is looked
     * up in the kind's table and the value must pass its check.
     */
    function Validate(key: string, value: string, env: Environment): (r: Result<ValidProperty, ValidationError>)
      reads this
      ensures r.Ok? ==> r.value.value == value
      ensures r.Ok? && r.value.PrinterProperty? ==> r.value.name in printerDefinitions
      ensures r.Ok? && r.value.FormatProperty? ==> r.value.name in formatDefinitions
    {
      var keyParts := Split(key, MaxParts);
      var prefix := keyParts[0];
      if prefix == PrinterPrefix then
        if |keyParts| <= 1 then Err(InvalidPrinterKey(key))
        else
          var propertyName := if |keyParts| > 2 then keyParts[1] + "." + keyParts[2] else keyParts[1];
          var _ :- ValidationLookup(Printer, propertyName, value, env);
          Ok(PrinterProperty(propertyName, value))
      else if prefix == FormatPrefix then
        if |keyParts| <= 2 then Err(InvalidFormatKey(key))
        else
          var formatName := keyParts[1];
          var propertyName := keyParts[2];
          var _ :- ValidationLookup(Format, propertyName, value, env);
          Ok(FormatProperty(formatName, propertyName, value))
      else Err(InvalidPrefix(prefix))
    }

    /** A key "printer.<name>" is the printer property <name>, whatever dots <name> holds. */
    lemma ValidatePrinterKey(name: string, value: string, env: Environment)
      ensures var r := Validate(PrinterPrefix + "." + name, value, env);
        && (r.Ok? <==> name in printerDefinitions && Test(printerDefinitions[name], value, env))
        && (r.Ok? ==> r.value == PrinterProperty(name, value))
        && (r.Err? ==> r.error == ValidationLookup(Printer, name, value, env).error)
    {
      SplitPrinterKey(name);
    }

    /** A key "format.<format>.<name>" is the property <name> of format <format>. */
    lemma ValidateFormatKey(format: string, name: string, value: string, env: Environment)
      requires '.' !in format
      ensures var r := Validate(FormatPrefix + "." + format + "." + name, value, env);
        && (r.Ok? <==> name in formatDefinitions && Test(formatDefinitions[name], value, env))
        && (r.Ok? ==> r.value == FormatProperty(format, name, value))
        && (r.Err? ==> r.error == ValidationLookup(Format, name, value, env).error)
    {
      SplitFormatKey(format, name);
    }

    /** A key without a dot is a bare prefix: a printer or format key without a name, or an unknown prefix. */
    lemma ValidateKeyWithoutDot(key: string, value: string, env: Environment)
      requires '.' !in key
      ensures Validate(key, value, env)
        == if key == PrinterPrefix then Err(InvalidPrinterKey(key))
           else if key == FormatPrefix then Err(InvalidFormatKey(key))
           else Err(InvalidPrefix(key))
    {
      SplitWhole(key, MaxParts);
    }

    /** A format key without a property name is rejected. */
    lemma ValidateFormatWithoutName(format: string, value: string, env: Environment)
      requires '.' !in format
      ensures Validate(FormatPrefix + "." + format, value, env) == Err(InvalidFormatKey(FormatPrefix + "." + format))
    {
      SplitFirst(FormatPrefix, format, MaxParts);
      SplitWhole(format, MaxParts - 1);
    }

    /** Any key whose part before the first dot is neither prefix is rejected with that part. */
    lemma ValidateOtherPrefix(prefix: string, rest: string, value: string, env: Environment)
      requires '.' !in prefix && prefix != PrinterPrefix && prefix != FormatPrefix
      ensures Validate(prefix + "." + rest, value, env) == Err(InvalidPrefix(prefix))
    {
      SplitFirst(prefix, rest, MaxParts);
    }

    /** The ones the constructor made required, looked up against the config's names. */
    method CheckConfigComplete(kind: Kind, propertyNames: seq<string>) returns (r: Result<(), seq<string>>)
      requires Valid()
      ensures r.Ok? <==> forall n :: n in (if kind == Printer then requiredPrinterProperties else requiredFormatProperties) ==> n in propertyNames
    {
      var checklist := if kind == Printer then requiredPrinterProperties else requiredFormatProperties;
      r := CheckCompleteness(propertyNames, checklist);
      DistinctCovered(checklist, propertyNames);
    }
  }

  /** The properties `validate` answers. */
  datatype ValidProperty =
    | PrinterProperty(name: string, value: string)
    | FormatProperty(formatName: string, name: string, value: string)

  /** The reasons `validate` rejects a property. */
  datatype ValidationError =
    | InvalidPrinterKey(key: string)
    | InvalidFormatKey(key: string)
    | InvalidPrefix(prefix: string)
    | InvalidPropertyName(name: string)
    | InvalidValue(name: string, value: string)

  const PrinterPrefix: string := "printer"
  const FormatPrefix: string := "format"
  const MaxParts: nat := 3

  /** The printer properties in the order the constructor defines them. */
  function PrinterTable(): map<string, Requirement>
  {
    map[
      "name" := Both(NotEmpty, PrinterExists),
      "mode" := Both(NotEmpty, IsEnum),
      "brailletable" := FileExists,
      "floatingDot.support" := IsBoolean,
      "floatingDot.resolution" := PositiveDouble,
      "constraint.top" := PositiveDouble,
      "constraint.left" := PositiveDouble,
      "constraint.width" := PositiveDouble,
      "constraint.height" := PositiveDouble,
      "raster.constraint.top" := PositiveInteger,
      "raster.constraint.left" := PositiveInteger,
      "raster.constraint.width" := PositiveInteger,
      "raster.constraint.height" := PositiveInteger,
      "raster.type" := NotEmpty,
      "raster.dotDistance.horizontal" := PositiveDouble,
      "raster.dotDistance.vertical" := PositiveDouble,
      "raster.cellDistance.horizontal" := PositiveDouble,
      "raster.cellDistance.vertical" := PositiveDouble,
      "raster.dotDiameter" := PositiveDouble]
  }

  /** The format properties: all six positive integers. */
  function FormatTable(): map<string, Requirement>
  {
    map[
      "page.width" := PositiveInteger,
      "page.height" := PositiveInteger,
      "margin.top" := PositiveInteger,
      "margin.right" := PositiveInteger,
      "margin.bottom" := PositiveInteger,
      "margin.left" := PositiveInteger]
  }

  function RequiredPrinterList(): seq<string>
  {
    ["name", "mode", "brailletable", "floatingDot.support", "constraint.top", "constraint.left",
     "raster.constraint.top", "raster.constraint.left", "raster.type",
     "raster.dotDistance.horizontal", "raster.dotDistance.vertical",
     "raster.cellDistance.horizontal", "raster.cellDistance.vertical", "raster.dotDiameter"]
  }

  function RequiredPrinterNames(): set<string>
  {
    set n | n in RequiredPrinterList()
  }

  /** The printer properties defined with `false`: not required. */
  function OptionalPrinterNames(): set<string>
  {
    {"floatingDot.resolution", "constraint.width", "constraint.height", "raster.constraint.width", "raster.constraint.height"}
  }

  function FormatList(): seq<string>
  {
    ["page.width", "page.height", "margin.top", "margin.right", "margin.bottom", "margin.left"]
  }

  function FormatNames(): set<string>
  {
    set n | n in FormatList()
  }

  predicate Distinct(s: seq<string>)
  {
    forall i, j :: 0 <= i < j < |s| ==> s[i] != s[j]
  }

  /** The required lists, name by name as the constructor appends them. */
  lemma RequiredListsAppended()
    ensures RequiredPrinterList()
      == [] + ["name"] + ["mode"] + ["brailletable"] + ["floatingDot.support"] + ["constraint.top"] + ["constraint.left"]
         + ["raster.constraint.top"] + ["raster.constraint.left"] + ["raster.type"]
         + ["raster.dotDistance.horizontal"] + ["raster.dotDistance.vertical"]
         + ["raster.cellDistance.horizontal"] + ["raster.cellDistance.vertical"] + ["raster.dotDiameter"]
    ensures FormatList() == [] + ["page.width"] + ["page.height"] + ["margin.top"] + ["margin.right"] + ["margin.bottom"] + ["margin.left"]
  {
  }

  /** Each kind's required names are defined in its table, once each. */
  lemma TablesHoldRequired()
    ensures forall i :: 0 <= i < |RequiredPrinterList()| ==> RequiredPrinterList()[i] in PrinterTable()
    ensures forall i :: 0 <= i < |FormatList()| ==> FormatList()[i] in FormatTable()
    ensures Distinct(RequiredPrinterList()) && Distinct(FormatList())
  {
  }

  /** The printer table defines exactly the required and the optional names, and every format property is a positive integer. */
  lemma TableKeys()
    ensures PrinterTable().Keys == RequiredPrinterNames() + OptionalPrinterNames()
    ensures FormatTable().Keys == FormatNames()
    ensures forall n :: n in FormatTable() ==> FormatTable()[n] == PositiveInteger
  {
  }

  /** The checks of the printer properties that are not numbers. */
  lemma PrinterChecks()
    ensures PrinterTable()["name"] == Both(NotEmpty, PrinterExists)
    ensures PrinterTable()["mode"] == Both(NotEmpty, IsEnum)
    ensures PrinterTable()["brailletable"] == FileExists
    ensures PrinterTable()["floatingDot.support"] == IsBoolean
    ensures PrinterTable()["raster.type"] == NotEmpty
  {
  }

  /** The optional printer properties are exactly the ones missing from the required list. */
  lemma OptionalNotRequired()
    ensures OptionalPrinterNames() !! RequiredPrinterNames()
    ensures |RequiredPrinterList()| == 14 && |OptionalPrinterNames()| == 5 && |FormatList()| == 6
  {
  }

  // ---------------------------------------------------------------------
  // Splitting keys
  // ---------------------------------------------------------------------

  /** The index of the first '.' of a string, or its length when it has none. */
  function DotIndex(s: string): (i: nat)
    ensures i <= |s|
    ensures i < |s| ==> s[i] == '.'
  {
    if s == [] || s[0] == '.' then 0 else DotIndex(s[1..]) + 1
  }

  /** The string holds no '.'. */
  predicate NoDot(s: string)
  {
    DotIndex(s) == |s|
  }

  /** `DotIndex` finds a dot exactly when there is one. */
  lemma {:induction false} NoDotMeans(s: string)
    ensures NoDot(s) <==> '.' !in s
  {
    if s != [] && s[0] != '.' {
      NoDotMeans(s[1..]);
      assert s == [s[0]] + s[1..];
    }
  }

  /** No dot comes before the one `DotIndex` finds. */
  lemma {:induction false} DotIndexFirst(s: string)
    ensures NoDot(s[..DotIndex(s)])
  {
    if s != [] && s[0] != '.' {
      DotIndexFirst(s[1..]);
      assert s[..DotIndex(s)] == [s[0]] + s[1..][..DotIndex(s[1..])];
    }
  }

  /** Behind a dotless first part, the first dot is the one that follows it. */
  lemma {:induction false} DotIndexAfter(first: string, rest: string)
    requires NoDot(first)
    ensures DotIndex(first + "." + rest) == |first|
  {
    if first != [] {
      DotIndexAfter(first[1..], rest);
      assert (first + "." + rest)[1..] == first[1..] + "." + rest;
    }
  }

  /**
   * `key.split("\\.", limit)` for a positive limit: the parts between dots,
   * at most `limit` of them, the last one holding the rest of the key; empty
   * parts are kept.
   */
  function Split(s: string, limit: nat): (parts: seq<string>)
    requires limit >= 1
    ensures 1 <= |parts| <= limit
    decreases |s|
  {
    if limit == 1 || NoDot(s) then [s]
    else
      var i := DotIndex(s);
      [s[..i]] + Split(s[i + 1..], limit - 1)
  }

  /**
   * The parts rejoined with dots are the key; every part but the last has no
   * dot, and neither has the last when the limit was not reached.
   */
  lemma SplitRejoins(s: string, limit: nat)
    requires limit >= 1
    ensures Join(Split(s, limit)) == s
    ensures DotFreeParts(Split(s, limit), limit)
  {
    SplitJoins(s, limit);
    SplitDotFree(s, limit);
  }

  lemma {:induction false} SplitJoins(s: string, limit: nat)
    requires limit >= 1
    ensures Join(Split(s, limit)) == s
    decreases |s|
  {
    if limit > 1 && !NoDot(s) {
      var i := DotIndex(s);
      var first, rest := s[..i], s[i + 1..];
      var tail := Split(rest, limit - 1);
      assert Split(s, limit) == [first] + tail;
      SplitJoins(rest, limit - 1);
      JoinCons(first, tail);
      assert s == first + "." + rest;
    }
  }

  lemma {:induction false} SplitDotFree(s: string, limit: nat)
    requires limit >= 1
    ensures DotFreeParts(Split(s, limit), limit)
    decreases |s|
  {
    if limit > 1 && !NoDot(s) {
      var i := DotIndex(s);
      var parts := Split(s, limit);
      SplitDotFree(s[i + 1..], limit - 1);
      DotIndexFirst(s);
      assert parts[0] == s[..i] && parts[1..] == Split(s[i + 1..], limit - 1);
    }
  }

  /**
   * Parts a split into at most `limit` pieces can produce: none but the last
   * holds a dot, and the last holds none either unless it is the `limit`-th.
   */
  predicate DotFreeParts(parts: seq<string>, limit: int)
    decreases |parts|
  {
    if |parts| <= 1 then |parts| == 1 && limit > 1 ==> NoDot(parts[0])
    else NoDot(parts[0]) && DotFreeParts(parts[1..], limit - 1)
  }

  /** The parts joined with dots between them. */
  function Join(parts: seq<string>): string
  {
    if parts == [] then ""
    else if |parts| == 1 then parts[0]
    else parts[0] + "." + Join(parts[1..])
  }

  lemma JoinCons(first: string, rest: seq<string>)
    requires rest != []
    ensures Join([first] + rest) == first + "." + Join(rest)
  {
    assert ([first] + rest)[1..] == rest;
  }

  /** A first part without a dot is split off, and the rest is split with one part fewer. */
  lemma SplitFirst(first: string, rest: string, limit: nat)
    requires limit >= 2 && '.' !in first
    ensures Split(first + "." + rest, limit) == [first] + Split(rest, limit - 1)
  {
    var s := first + "." + rest;
    NoDotMeans(first);
    DotIndexAfter(first, rest);
    assert s[..|first|] == first;
    assert s[|first| + 1..] == rest;
  }

  /** A printer key splits into the prefix and a name that the parts after it rejoin to. */
  lemma SplitPrinterKey(name: string)
    ensures var parts := Split(PrinterPrefix + "." + name, MaxParts);
      && |parts| >= 2 && parts[0] == PrinterPrefix
      && (if |parts| > 2 then parts[1] + "." + parts[2] else parts[1]) == name
  {
    SplitFirst(PrinterPrefix, name, MaxParts);
    SplitRejoins(name, MaxParts - 1);
    var rest := Split(name, MaxParts - 1);
    if |rest| == 2 {
      assert rest == [rest[0]] + [rest[1]];
      JoinCons(rest[0], [rest[1]]);
    }
  }

  /** A format key with a dotless format name splits into the prefix, the format name and the property name. */
  lemma SplitFormatKey(format: string, name: string)
    requires '.' !in format
    ensures Split(FormatPrefix + "." + format + "." + name, MaxParts) == [FormatPrefix, format, name]
  {
    assert FormatPrefix + "." + format + "." + name == FormatPrefix + "." + (format + "." + name);
    SplitFirst(FormatPrefix, format + "." + name, MaxParts);
    SplitFirst(format, name, MaxParts - 1);
    assert Split(name, 1) == [name];
  }

  /** A string without a dot, or split into one part, stays whole. */
  lemma SplitWhole(s: string, limit: nat)
    requires limit >= 1
    ensures '.' !in s || limit == 1 ==> Split(s, limit) == [s]
  {
    NoDotMeans(s);
  }

  // ---------------------------------------------------------------------
  // Completeness
  // ---------------------------------------------------------------------

  /** `ArrayList.remove(Object)`: the first occurrence removed, if any. */
  function RemoveFirst(list: seq<string>, name: string): (r: seq<string>)
    ensures multiset(r) == multiset(list) - multiset{name}
  {
    if list == [] then []
    else if list[0] == name then
      assert list == [list[0]] + list[1..];
      list[1..]
    else
      assert list == [list[0]] + list[1..];
      [list[0]] + RemoveFirst(list[1..], name)
  }

  /**
   * `checkCompleteness`: every property name of the config ticks one entry
   * off a copy of the checklist; what remains is missing, and anything
   * missing is an error (the source throws). The checklist itself is a value
   * and is not changed.
   */
  method CheckCompleteness(propertyNames: seq<string>, checklist: seq<string>) returns (r: Result<(), seq<string>>)
    ensures r.Err? ==> multiset(r.error) == multiset(checklist) - multiset(propertyNames) && r.error != []
    ensures r.Ok? <==> multiset(checklist) <= multiset(propertyNames)
  {
    var missingProperties := checklist;
    var i := 0;
    while i < |propertyNames|
      invariant 0 <= i <= |propertyNames|
      invariant multiset(missingProperties) == multiset(checklist) - multiset(propertyNames[..i])
    {
      TickOff(missingProperties, checklist, propertyNames, i);
      missingProperties := RemoveFirst(missingProperties, propertyNames[i]);
      i := i + 1;
    }
    assert propertyNames[..i] == propertyNames;
    NothingMissing(missingProperties, multiset(checklist), multiset(propertyNames));
    if missingProperties != [] {
      r := Err(missingProperties);
    } else {
      r := Ok(());
    }
  }

  /** Nothing remains of the checklist iff the names cover it. */
  lemma NothingMissing(missing: seq<string>, checklist: multiset<string>, names: multiset<string>)
    requires multiset(missing) == checklist - names
    ensures missing == [] <==> checklist <= names
  {
    MultisetDifferenceEmpty(checklist, names);
    if missing != [] {
      assert missing[0] in multiset(missing);
    }
  }

  /** Ticking off one more name leaves the checklist less the names up to and including it. */
  lemma TickOff(missing: seq<string>, checklist: seq<string>, names: seq<string>, i: int)
    requires 0 <= i < |names| && multiset(missing) == multiset(checklist) - multiset(names[..i])
    ensures multiset(RemoveFirst(missing, names[i])) == multiset(checklist) - multiset(names[..i + 1])
  {
    assert names[..i + 1] == names[..i] + [names[i]];
    assert multiset(names[..i + 1]) == multiset(names[..i]) + multiset{names[i]};
    DifferenceOfSum(multiset(checklist), multiset(names[..i]), multiset{names[i]});
  }

  lemma DifferenceOfSum(a: multiset<string>, b: multiset<string>, c: multiset<string>)
    ensures a - (b + c) == (a - b) - c
  {
    assert forall x :: (a - (b + c))[x] == ((a - b) - c)[x];
  }

  lemma MultisetDifferenceEmpty(a: multiset<string>, b: multiset<string>)
    ensures a - b == multiset{} <==> a <= b
  {
    if a - b == multiset{} {
      forall x | x in a
        ensures a[x] <= b[x]
      {
        assert (a - b)[x] == 0;
      }
    }
  }

  /** For a checklist without repetitions, covering it as multisets is having every name. */
  lemma DistinctCovered(checklist: seq<string>, names: seq<string>)
    requires Distinct(checklist)
    ensures multiset(checklist) <= multiset(names) <==> forall n :: n in checklist ==> n in names
  {
    if forall n :: n in checklist ==> n in names {
      forall x | x in multiset(checklist)
        ensures multiset(checklist)[x] <= multiset(names)[x]
      {
        DistinctCount(checklist, x);
        assert x in names;
      }
    }
    if multiset(checklist) <= multiset(names) {
      forall n | n in checklist
        ensures n in names
      {
        assert n in multiset(checklist);
      }
    }
  }

  /** A name occurs at most once in a list without repetitions. */
  lemma {:induction false} DistinctCount(s: seq<string>, x: string)
    requires Distinct(s)
    ensures multiset(s)[x] <= 1
  {
    if s != [] {
      assert s == [s[0]] + s[1..];
      DistinctCount(s[1..], x);
      if s[0] == x {
        assert x !in s[1..];
      }
    }
  }
}
