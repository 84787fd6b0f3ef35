/**
 * Response interpreter (aurora.py, `process_analysis_and_send_alert`):
 * decide from the vision model's reply whether to alert and with which
 * caption.
 *
 * Python raises `AttributeError` when the reply parses to something other
 * than an object (`.get` is missing) or when `aurora_detected` is not a
 * string (`.lower` is missing); only `JSONDecodeError` is caught, so both
 * end the run with an uncaught exception, modelled as `Raises`.
 */
module Interpreter {
  import opened Json
  import opened Text
  import opened Optional

  const DetectedKey := "aurora_detected"
  const SummaryKey := "analysis_summary"
  /** The caption used when the reply gives none, and in the fallback. */
  const DefaultCaption := "Aurora detected — check the sky!"
  /** The literal the fallback looks for in the lower-cased reply. */
  const FallbackMarker := "\"aurora_detected\": \"yes\""
  /** The one image every alert carries. */
  const ImagePath := "/root/poker_flat.jpg"

  /** Send an alert with this message and these image paths, send nothing,
      or end the run with an uncaught exception. */
  datatype Decision = Alert(message: JsonValue, imagePaths: seq<string>) | NoAlert | Raises

  /** `s` is "yes" in some mixture of cases: y/Y, e/E, s/S. */
  predicate YesInAnyCase(s: string)
  {
    |s| == 3 && (s[0] == 'y' || s[0] == 'Y') && (s[1] == 'e' || s[1] == 'E')
             && (s[2] == 's' || s[2] == 'S')
  }

  /** `analysis.get("aurora_detected", "yes").lower()`, or None where
      `.lower` does not exist: it is "yes" iff the flag is missing or is
      "yes" in any case, and None iff the flag is not a string. */
  function DetectedFlag(members: map<string, JsonValue>): (r: Option<string>)
    ensures r.None? <==> DetectedKey in members && members[DetectedKey].JNonString?
    ensures r == Some("yes") <==>
      DetectedKey !in members ||
      (members[DetectedKey].JString? && YesInAnyCase(members[DetectedKey].s))
  {
    if DetectedKey !in members then Some("yes")
    else match members[DetectedKey]
      case JString(s) =>
        LowerEqualsIff(s, "yes");
        Some(Lower(s))
      case JNonString(_) => None
  }

  /** `analysis.get("analysis_summary", DefaultCaption)`: the model's own
      summary whenever it gave one, of whatever JSON type, else the default. */
  function Summary(members: map<string, JsonValue>): (r: JsonValue)
    ensures SummaryKey in members ==> r == members[SummaryKey]
    ensures SummaryKey !in members ==> r == JString(DefaultCaption)
  {
    if SummaryKey in members then members[SummaryKey] else JString(DefaultCaption)
  }

  /** The decision taken for a reply `text` whose parse outcome is `parsed`. */
  function Interpret(parsed: ParseResult, text: string): (d: Decision)
    // every alert goes to the one captured image
    ensures d.Alert? ==> d.imagePaths == [ImagePath]
    // a reply that is not an object ends the run
    ensures parsed.ParsedNonObject? ==> d.Raises?
    // parsed object: alert iff the flag is absent or case-insensitively "yes",
    // with the summary (or the default text) as caption
    ensures parsed.ParsedObject? ==>
      (d.Raises? <==> DetectedKey in parsed.members && parsed.members[DetectedKey].JNonString?)
    ensures parsed.ParsedObject? ==>
      (d.Alert? <==>
        DetectedKey !in parsed.members ||
        (parsed.members[DetectedKey].JString? && Lower(parsed.members[DetectedKey].s) == "yes"))
    ensures parsed.ParsedObject? && d.Alert? ==>
      d.message == (if SummaryKey in parsed.members then parsed.members[SummaryKey]
                    else JString(DefaultCaption))
    // decode error: alert with the default text iff the marker occurs in the
    // lower-cased text; never an exception
    ensures parsed.DecodeError? ==> !d.Raises?
    ensures parsed.DecodeError? ==> (d.Alert? <==> Contains(Lower(text), FallbackMarker))
    ensures parsed.DecodeError? && d.Alert? ==> d.message == JString(DefaultCaption)
  {
    match parsed
    case ParsedObject(members) =>
      var flag := DetectedFlag(members);
      if flag.None? then Raises
      else if flag.value == "yes" then Alert(Summary(members), [ImagePath])
      else NoAlert
    case ParsedNonObject => Raises
    case DecodeError =>
      if Contains(Lower(text), FallbackMarker) then Alert(JString(DefaultCaption), [ImagePath])
      else NoAlert
  }

  /** On a parsed object, detection is a case-insensitive match on "yes":
      "YES", "Yes", "yEs" all alert. */
  lemma DetectionIsCaseInsensitive(members: map<string, JsonValue>, text: string)
    requires DetectedKey in members && members[DetectedKey].JString?
    ensures var s := members[DetectedKey].s;
      Interpret(ParsedObject(members), text).Alert? <==>
        |s| == 3 && (s[0] == 'y' || s[0] == 'Y') && (s[1] == 'e' || s[1] == 'E')
                 && (s[2] == 's' || s[2] == 'S')
  {
  }

  /** A reply without `aurora_detected` alerts (the default is "yes"). */
  lemma MissingFlagAlerts(members: map<string, JsonValue>, text: string)
    requires DetectedKey !in members
    ensures Interpret(ParsedObject(members), text) == Alert(Summary(members), [ImagePath])
  {
  }

  /** The marker occurs at index `i` of `text`, in any mixture of cases. */
  ghost predicate MarkerAt(text: string, i: int)
  {
    0 <= i && i + |FallbackMarker| <= |text| &&
    Lower(text[i..i + |FallbackMarker|]) == FallbackMarker
  }

  /** The fallback alerts iff the marker occurs in the reply with any
      mixture of upper and lower case. */
  lemma FallbackFindsMarkerInAnyCase(text: string)
    ensures Interpret(DecodeError, text).Alert? <==> exists i :: MarkerAt(text, i)
  {
    var n := |FallbackMarker|;
    if Interpret(DecodeError, text).Alert? {
      var i :| OccursAt(Lower(text), FallbackMarker, i);
      LowerSlice(text, i, i + n);
      assert MarkerAt(text, i);
    }
    forall i | MarkerAt(text, i) ensures OccursAt(Lower(text), FallbackMarker, i) {
      LowerSlice(text, i, i + n);
    }
  }

  /** A reply with `"aurora_detected":"no"` sends nothing. */
  lemma ScenarioNoDetection(text: string)
    ensures Interpret(ParsedObject(map[DetectedKey := JString("no")]), text) == NoAlert
  {
  }

  /** A reply with `"aurora_detected":"yes"` and a summary alerts once, with
      that summary as caption and the captured image attached. */
  lemma ScenarioDetectionWithSummary(text: string)
    ensures Interpret(ParsedObject(map[DetectedKey := JString("yes"),
                                       SummaryKey := JString("Bright green arc overhead")]), text)
         == Alert(JString("Bright green arc overhead"), [ImagePath])
  {
  }
}
