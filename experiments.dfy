/**
 * The landing-page experiment of the settings application: how the
 * cached assignment file `experimentation.json` is reconciled with a fresh
 * variant assignment from the treatment-assignment service, and how
 * `IsExperiment` is decided on success and when the service is unreachable.
 *
 * The file is a JSON object of string keys; the service's answer, the
 * FlightRing system property and the new GUID are inputs.
 */
module Experiments {
  import opened Wrappers

  /** C#'s `int`. */
  type Int32 = x: int | -0x8000_0000 <= x < 0x8000_0000

  /** A value of the deserialized `Dictionary<string, object>`; JNull is C#'s null. */
  datatype JsonValue = JNumber(n: int) | JString(s: string) | JNull

  /** What JsonSerializer makes of the file's text: an error, the literal `null`, or an object. */
  datatype JsonDocument = Malformed | NullDocument | Object(entries: map<string, JsonValue>)

  /** The file `experimentation.json` in the local application-data folder. */
  datatype FileEntry = Absent | Present(doc: JsonDocument)

  const DataVersionKey := "dataversion"
  const VariantKey := "variantassignment"
  const ClientIdKey := "clientid"
  const FlightRingParameter := "flightRing"
  const Alternate := "alternate"

  // ---------------------------------------------------------------------------
  // object.ToString() and int.Parse on dictionary values

  function DigitChar(d: nat): (c: char)
    requires d < 10
    ensures '0' <= c <= '9'
  {
    "0123456789"[d]
  }

  /** Decimal digits of a natural number, most significant first. */
  function NaturalText(n: nat): (t: string)
    decreases n
    ensures |t| > 0 && '0' <= t[0] <= '9'
  {
    if n < 10 then [DigitChar(n)] else NaturalText(n / 10) + [DigitChar(n % 10)]
  }

  /** `value?.ToString()`: None where the value is null. A number never spells a word. */
  function Text(v: JsonValue): (t: Option<string>)
    ensures t.None? <==> v.JNull?
    ensures v.JString? ==> t == Some(v.s)
    ensures v.JNumber? ==> t.Some? && |t.value| > 0 && (t.value[0] == '-' || '0' <= t.value[0] <= '9')
  {
    match v
    case JNumber(n) => Some(if n < 0 then "-" + NaturalText(-n) else NaturalText(n))
    case JString(s) => Some(s)
    case JNull => None
  }

  /** Only the string "alternate" has the text "alternate". */
  lemma TextIsAlternate(v: JsonValue)
    ensures Text(v) == Some(Alternate) <==> v == JString(Alternate)
  {
  }

  /**
   * `int.Parse(value.ToString())`: the number when it is an int; None where
   * the source throws (null value, text that is not an int).
   */
  function ParsedVersion(v: JsonValue): (r: Option<Int32>)
    ensures r.Some? <==> v.JNumber? && -0x8000_0000 <= v.n < 0x8000_0000
    ensures r.Some? ==> r.value == v.n
  {
    match v
    case JNumber(n) => if -0x8000_0000 <= n < 0x8000_0000 then Some(n) else None
    case _ => None
  }

  // ---------------------------------------------------------------------------
  // Reconciling the cached dictionary with a fresh assignment

  /**
   * The cached dictionary after a fresh assignment, by which of the two keys
   * it already holds; None where reading the stored version throws.
   */
  function MergedDictionary(d: map<string, JsonValue>, version: Int32, flag: string): Option<map<string, JsonValue>> {
    if VariantKey !in d && DataVersionKey !in d then
      Some(d[DataVersionKey := JNumber(version)][VariantKey := JString(flag)])
    else if VariantKey !in d then
      Some(d[VariantKey := JString(flag)])
    else if DataVersionKey !in d then
      Some(d[DataVersionKey := JNumber(version)])
    else
      match ParsedVersion(d[DataVersionKey])
      case None => None
      case Some(stored) =>
        if stored < version then Some(d[DataVersionKey := JNumber(version)][VariantKey := JString(flag)])
        else Some(d)
  }

  /**
   * The dictionary update of VariantAssignmentProvider_Initialize, step by
   * step as the source does it: add what is missing, then compare versions
   * if a variant was already stored.
   */
  method MergeAssignment(cached: map<string, JsonValue>, dataVersion: Int32, featureFlagValue: string)
    returns (r: Option<map<string, JsonValue>>)
    ensures r == MergedDictionary(cached, dataVersion, featureFlagValue)
  {
    var dict := cached;
    if DataVersionKey !in dict {
      dict := dict[DataVersionKey := JNumber(dataVersion)];
    }
    if VariantKey !in dict {
      dict := dict[VariantKey := JString(featureFlagValue)];
    } else {
      var stored := ParsedVersion(dict[DataVersionKey]);
      if stored.None? {
        return None;
      }
      if stored.value < dataVersion {
        dict := dict[DataVersionKey := JNumber(dataVersion)];
        dict := dict[VariantKey := JString(featureFlagValue)];
      }
    }
    return Some(dict);
  }

  /** Missing keys are added with the new version and flag; a key already there keeps its value. */
  lemma MergeAddsMissingKeys(d: map<string, JsonValue>, version: Int32, flag: string)
    ensures VariantKey !in d ==> MergedDictionary(d, version, flag).Some?
    ensures VariantKey !in d ==> MergedDictionary(d, version, flag).value[VariantKey] == JString(flag)
    ensures VariantKey !in d && DataVersionKey !in d ==>
      MergedDictionary(d, version, flag).value[DataVersionKey] == JNumber(version)
    ensures VariantKey !in d && DataVersionKey in d ==>
      MergedDictionary(d, version, flag).value[DataVersionKey] == d[DataVersionKey]
  {
  }

  /** A stored variant is replaced, together with its version, exactly when the stored version is older. */
  lemma MergeOverwritesOnlyOlder(d: map<string, JsonValue>, version: Int32, flag: string, stored: Int32)
    requires VariantKey in d && DataVersionKey in d && ParsedVersion(d[DataVersionKey]) == Some(stored)
    ensures var r := MergedDictionary(d, version, flag);
      && r.Some?
      && (stored < version ==> r.value[DataVersionKey] == JNumber(version) && r.value[VariantKey] == JString(flag))
      && (stored >= version ==> r.value == d)
  {
  }

  /** Where the version was missing but a variant stored, the fresh version is not newer than itself: the variant stays. */
  lemma MergeKeepsVariantWithoutVersion(d: map<string, JsonValue>, version: Int32, flag: string)
    requires VariantKey in d && DataVersionKey !in d
    ensures MergedDictionary(d, version, flag) == Some(d[DataVersionKey := JNumber(version)])
    ensures MergedDictionary(d, version, flag).value[VariantKey] == d[VariantKey]
  {
  }

  /** The merge fails only when both keys are there and the stored version is not an int. */
  lemma MergeFailsOnlyOnBadVersion(d: map<string, JsonValue>, version: Int32, flag: string)
    ensures MergedDictionary(d, version, flag).None? <==>
      VariantKey in d && DataVersionKey in d && ParsedVersion(d[DataVersionKey]).None?
  {
  }

  /** The merge removes no key, adds only the two experiment keys and leaves every other key alone. */
  lemma MergePreservesOtherKeys(d: map<string, JsonValue>, version: Int32, flag: string)
    requires MergedDictionary(d, version, flag).Some?
    ensures var m := MergedDictionary(d, version, flag).value;
      && m.Keys == d.Keys + {DataVersionKey, VariantKey}
      && forall k :: k in d && k != DataVersionKey && k != VariantKey ==> m[k] == d[k]
  {
  }

  /**
   * Initialising twice more with the same assignment changes nothing: after
   * two merges the dictionary is a fixed point (the first merge may add a
   * variant next to an older version, which the second then updates).
   */
  lemma MergeSettlesAfterTwo(d: map<string, JsonValue>, version: Int32, flag: string)
    requires DataVersionKey in d ==> ParsedVersion(d[DataVersionKey]).Some?
    ensures var once := MergedDictionary(d, version, flag);
      && once.Some?
      && var twice := MergedDictionary(once.value, version, flag);
      && twice.Some?
      && MergedDictionary(twice.value, version, flag) == twice
  {
  }

  // ---------------------------------------------------------------------------
  // Deciding IsExperiment

  /** The treatment-assignment service's answer, or the exception its call raised. */
  datatype TasResponse =
    | Assignments(assignedCount: nat, dataVersion: Int32, featureValues: seq<string>, assignmentContext: string)
    | HttpFailure
    | OtherFailure

  /** What an initialisation leaves behind; `faulted` is an exception escaping it. */
  datatype InitOutcome = InitOutcome(isExperiment: bool, file: FileEntry, faulted: bool)

  /** The success-path rule: the flag says "alternate" and there is an assignment context. */
  predicate AssignedAlternate(featureFlagValue: string, assignmentContext: string) {
    featureFlagValue == Alternate && assignmentContext != ""
  }

  /** The file after a successful merge; otherwise (missing, malformed, null, bad version) as it was. */
  function FileAfterMerge(file: FileEntry, version: Int32, flag: string): FileEntry {
    match file
    case Present(Object(d)) => (
      match MergedDictionary(d, version, flag)
      case Some(m) => Present(Object(m))
      case None => file)
    case _ => file
  }

  /**
   * The HttpRequestException handler: IsExperiment from the cached variant.
   * The handler itself throws on a missing or malformed file and on a null
   * variant; such an exception leaves the handler (faulted).
   */
  function FallbackOutcome(file: FileEntry): InitOutcome {
    match file
    case Present(Object(d)) =>
      if VariantKey !in d then InitOutcome(false, file, false)
      else (
        match Text(d[VariantKey])
        case None => InitOutcome(false, file, true)
        case Some(t) => InitOutcome(t == Alternate, file, false))
    case Present(NullDocument) => InitOutcome(false, file, false)
    case _ => InitOutcome(false, file, true)
  }

  /** VariantAssignmentProvider_Initialize after the request was built; `file` is the file at that point. */
  function InitializeOutcome(file: FileEntry, response: TasResponse): InitOutcome {
    match response
    case OtherFailure => InitOutcome(false, file, false)
    case HttpFailure => FallbackOutcome(file)
    case Assignments(count, version, values, context) =>
      if count == 0 || |values| == 0 then InitOutcome(false, file, false)
      else InitOutcome(AssignedAlternate(values[0], context), FileAfterMerge(file, version, values[0]), false)
  }

  /** On the success path, IsExperiment holds exactly when variants were assigned and the first flag is "alternate" with a context. */
  lemma SuccessPathDecision(file: FileEntry, response: TasResponse)
    requires response.Assignments?
    ensures InitializeOutcome(file, response).isExperiment <==>
      response.assignedCount != 0 && |response.featureValues| > 0 &&
      response.featureValues[0] == Alternate && response.assignmentContext != ""
    ensures !InitializeOutcome(file, response).faulted
  {
  }

  /** With no assigned variant, nothing is written and IsExperiment stays false. */
  lemma NoVariantsChangeNothing(file: FileEntry, response: TasResponse)
    requires response.Assignments? && response.assignedCount == 0
    ensures InitializeOutcome(file, response) == InitOutcome(false, file, false)
  {
  }

  /** Without the service, IsExperiment holds exactly when the cached variant is "alternate". */
  lemma FallbackDecision(file: FileEntry)
    ensures InitializeOutcome(file, HttpFailure).isExperiment <==>
      file.Present? && file.doc.Object? && VariantKey in file.doc.entries &&
      file.doc.entries[VariantKey] == JString(Alternate)
  {
  }

  /** Only the fallback handler can let an exception escape, and the file is written only on the success path. */
  lemma FaultsAndWrites(file: FileEntry, response: TasResponse)
    ensures InitializeOutcome(file, response).faulted ==> response.HttpFailure?
    ensures !response.Assignments? ==> InitializeOutcome(file, response).file == file
  {
  }

  /** The client id stored in the file survives the merge. */
  lemma MergeKeepsClientId(file: FileEntry, response: TasResponse)
    requires file.Present? && file.doc.Object? && ClientIdKey in file.doc.entries
    ensures var after := InitializeOutcome(file, response).file;
      after.Present? && after.doc.Object? && ClientIdKey in after.doc.entries &&
      after.doc.entries[ClientIdKey] == file.doc.entries[ClientIdKey]
  {
  }

  // ---------------------------------------------------------------------------
  // The client id and the request parameters

  /** The file after GetVariantAssignmentRequest: created holding only the new client id when missing. */
  function FileAfterRequest(file: FileEntry, newGuid: string): FileEntry {
    if file.Absent? then Present(Object(map[ClientIdKey := JString(newGuid)])) else file
  }

  /**
   * AssignmentUnit after GetVariantAssignmentRequest. A read that throws
   * (malformed file, no "clientid" key) is caught and leaves it as it was.
   */
  function UnitAfterRequest(unit: Option<string>, file: FileEntry, newGuid: string): Option<string> {
    match file
    case Absent => Some(newGuid)
    case Present(Object(d)) => if ClientIdKey in d then Text(d[ClientIdKey]) else unit
    case Present(_) => unit
  }

  /** A newly created file holds exactly one key, the client id, and an existing file is not rewritten. */
  lemma NewClientFile(file: FileEntry, newGuid: string)
    ensures var after := FileAfterRequest(file, newGuid);
      && after.Present?
      && (file.Absent? ==> after.doc.Object? && after.doc.entries.Keys == {ClientIdKey} &&
                           after.doc.entries[ClientIdKey] == JString(newGuid))
      && (file.Present? ==> after == file)
  {
  }

  /** The client id created on the first run is the one every later run reads back. */
  lemma ClientIdRoundTrip(unit: Option<string>, firstGuid: string, laterGuid: string)
    ensures var file := FileAfterRequest(Absent, firstGuid);
      UnitAfterRequest(unit, file, laterGuid) == Some(firstGuid) && FileAfterRequest(file, laterGuid) == file
  {
  }

  /** The file `experimentation.json`, which both operations read and write. */
  class ExperimentationFile {
    var entry: FileEntry

    constructor (entry: FileEntry)
      ensures this.entry == entry
    {
      this.entry := entry;
    }
  }

  class Experiments {
    var isExperiment: bool
    var assignmentUnit: Option<string>

    constructor ()
      ensures !isExperiment && assignmentUnit == None
    {
      isExperiment := false;
      assignmentUnit := None;
    }

    /**
     * GetVariantAssignmentRequest: settles the client id (creating the file
     * when missing) and returns the request parameters. `flightRing` is the
     * FlightRing system property, None where the system does not report it.
     */
    method GetVariantAssignmentRequest(store: ExperimentationFile, newGuid: string, flightRing: Option<string>)
      returns (parameters: map<string, Option<string>>)
      modifies this, store
      ensures store.entry == FileAfterRequest(old(store.entry), newGuid)
      ensures assignmentUnit == UnitAfterRequest(old(assignmentUnit), old(store.entry), newGuid)
      ensures isExperiment == old(isExperiment)
      ensures parameters.Keys == {FlightRingParameter, ClientIdKey}
      ensures parameters[FlightRingParameter] == Some(if flightRing.Some? then flightRing.value else "")
      ensures parameters[ClientIdKey] == assignmentUnit
    {
      match store.entry {
        case Absent =>
          assignmentUnit := Some(newGuid);
          var data := map[ClientIdKey := JString(newGuid)];
          store.entry := Present(Object(data));
        case Present(doc) =>
          match doc {
            case Object(d) =>
              if ClientIdKey in d {
                assignmentUnit := Text(d[ClientIdKey]);
              }
            case NullDocument =>
            case Malformed =>
          }
      }
      var ring := "";
      if flightRing.Some? {
        ring := flightRing.value;
      }
      parameters := map[FlightRingParameter := Some(ring), ClientIdKey := assignmentUnit];
    }

    /**
     * VariantAssignmentProvider_Initialize. `response` is what the call to
     * the service returned or raised; the result says whether an exception
     * escaped the method.
     */
    method Initialize(store: ExperimentationFile, newGuid: string, flightRing: Option<string>, response: TasResponse)
      returns (faulted: bool)
      modifies this, store
      ensures assignmentUnit == UnitAfterRequest(old(assignmentUnit), old(store.entry), newGuid)
      ensures var outcome := InitializeOutcome(FileAfterRequest(old(store.entry), newGuid), response);
        isExperiment == outcome.isExperiment && store.entry == outcome.file && faulted == outcome.faulted
    {
      isExperiment := false;
      faulted := false;
      var parameters := GetVariantAssignmentRequest(store, newGuid, flightRing);
      match response {
        case OtherFailure =>
        case Assignments(count, dataVersion, featureValues, assignmentContext) =>
          if count != 0 && |featureValues| > 0 {
            var featureFlagValue := featureValues[0];
            if featureFlagValue == Alternate && assignmentContext != "" {
              isExperiment := true;
            }
            match store.entry {
              case Present(Object(d)) =>
                var merged := MergeAssignment(d, dataVersion, featureFlagValue);
                if merged.Some? {
                  store.entry := Present(Object(merged.value));
                }
              case _ =>
            }
          }
        case HttpFailure =>
          match store.entry {
            case Present(Object(d)) =>
              if VariantKey in d {
                var text := Text(d[VariantKey]);
                if text.None? {
                  faulted := true;
                } else if text.value == Alternate {
                  isExperiment := true;
                }
              }
            case Present(NullDocument) =>
            case _ =>
              faulted := true;
          }
      }
    }
  }

  /**
   * EnableLandingPageExperimentAsync: a fresh Experiments object is
   * initialised and its IsExperiment returned; None where an exception
   * escapes.
   */
  method EnableLandingPageExperiment(store: ExperimentationFile, newGuid: string, flightRing: Option<string>,
                                     response: TasResponse)
    returns (r: Option<bool>)
    modifies store
    ensures var outcome := InitializeOutcome(FileAfterRequest(old(store.entry), newGuid), response);
      store.entry == outcome.file && r == (if outcome.faulted then None else Some(outcome.isExperiment))
  {
    var varServ := new Experiments();
    var faulted := varServ.Initialize(store, newGuid, flightRing, response);
    r := if faulted then None else Some(varServ.isExperiment);
  }
}
