/** The options form of the integration: the two custom polling intervals
    arrive as text, are stripped and read as whole minutes, and the entry
    is created only when neither field has an error. Every other form
    field is passed through as entered. */
module ConfigFlow {
  import opened Common
  import opened ConfigManager

  const DayKey := "custom_day_interval"
  const NightKey := "custom_night_interval"

  /** What one interval field's text turns into. */
  datatype FieldResult = Unset | Minutes(n: int) | Invalid(error: string)

  /** The decision for one interval field: blank text clears the interval,
      a number in 1..1440 is stored, any other number is out of range and
      text that is not a number is refused. */
  function ParseIntervalField(text: string): (r: FieldResult)
    ensures r.Unset? <==> Strip(text) == ""
    ensures r.Minutes? <==> Strip(text) != "" && ParseInt(Strip(text)).Some?
                            && 1 <= ParseInt(Strip(text)).value <= 1440
    ensures r.Minutes? ==> ParseInt(Strip(text)) == Some(r.n)
    ensures r == Invalid("interval_out_of_range") <==>
              Strip(text) != "" && ParseInt(Strip(text)).Some? && !(1 <= ParseInt(Strip(text)).value <= 1440)
    ensures r == Invalid("invalid_number") <==> Strip(text) != "" && ParseInt(Strip(text)).None?
  {
    var s := Strip(text);
    if s == "" then Unset
    else match ParseInt(s)
      case None => Invalid("invalid_number")
      case Some(n) => if n < 1 || n > 1440 then Invalid("interval_out_of_range") else Minutes(n)
  }

  /** The text of a form field, "" when it was not sent. The form's schema
      declares both interval fields as text. */
  function FieldText(userInput: Options, key: string): string
    requires key in userInput ==> userInput[key].Str?
  {
    if key in userInput then userInput[key].s else ""
  }

  /** The value stored for a field that parsed. */
  function Stored(r: FieldResult): Value
    requires !r.Invalid?
  {
    if r.Minutes? then Int(r.n) else Null
  }

  /** How one interval field ended up: an error under its key exactly when
      it did not parse, otherwise its parsed value stored under its key. */
  predicate FieldHandled(r: FieldResult, key: string, errors: map<string, string>, processed: Options) {
    (key in errors <==> r.Invalid?)
    && (r.Invalid? ==> errors[key] == r.error)
    && (!r.Invalid? ==> key in processed && processed[key] == Stored(r))
  }

  /** One field's block of `async_step_init`: records its error, or
      stores its parsed value, and touches no other key. */
  method HandleField(key: string, text: string, errors: map<string, string>, processed: Options)
    returns (errors': map<string, string>, processed': Options)
    requires key !in errors
    ensures FieldHandled(ParseIntervalField(text), key, errors', processed')
    ensures errors'.Keys == errors.Keys + (if ParseIntervalField(text).Invalid? then {key} else {})
    ensures processed'.Keys == processed.Keys + (if ParseIntervalField(text).Invalid? then {} else {key})
    ensures forall k :: k in errors && k != key ==> errors'[k] == errors[k]
    ensures forall k :: k in processed && k != key ==> processed'[k] == processed[k]
  {
    var r := ParseIntervalField(text);
    if r.Invalid? {
      errors', processed' := errors[key := r.error], processed;
    } else {
      errors', processed' := errors, processed[key := Stored(r)];
    }
  }

  /** `async_step_init` on submitted input: starts from a copy of the
      input, handles the day field and then the night field, and creates
      the entry when `errors` stays empty. */
  method StepInit(userInput: Options) returns (created: bool, errors: map<string, string>, processed: Options)
    requires DayKey in userInput ==> userInput[DayKey].Str?
    requires NightKey in userInput ==> userInput[NightKey].Str?
    ensures created <==> errors == map[]
    ensures errors.Keys <= {DayKey, NightKey}
    ensures FieldHandled(ParseIntervalField(FieldText(userInput, DayKey)), DayKey, errors, processed)
    ensures FieldHandled(ParseIntervalField(FieldText(userInput, NightKey)), NightKey, errors, processed)
    ensures forall k :: k in userInput && k != DayKey && k != NightKey ==> k in processed && processed[k] == userInput[k]
    ensures processed.Keys <= userInput.Keys + {DayKey, NightKey}
  {
    assert DayKey != NightKey by { assert DayKey[7] != NightKey[7]; }
    errors, processed := HandleField(DayKey, FieldText(userInput, DayKey), map[], userInput);
    errors, processed := HandleField(NightKey, FieldText(userInput, NightKey), errors, processed);
    created := errors == map[];
  }

  /** Whatever the form stores for an interval passes the options
      validator for intervals. */
  lemma StoredIntervalValid(text: string, key: string)
    requires !ParseIntervalField(text).Invalid?
    ensures ValidateInterval(Stored(ParseIntervalField(text)), key).None?
  {
  }

  /** The text the form shows for a stored interval: its decimal rendering,
      or "" when it is unset or zero. */
  function FormDefault(stored: Option<int>): (text: string)
    ensures text == "" <==> stored.None? || stored.value == 0
  {
    if stored.Some? && stored.value != 0 then IntToString(stored.value) else ""
  }

  /** Submitting the form unchanged keeps every stored interval: the
      default text of a stored interval parses back to it, and an unset
      one to Unset. */
  lemma FormDefaultRoundTrip(stored: Option<int>)
    requires stored.Some? ==> 1 <= stored.value <= 1440
    ensures ParseIntervalField(FormDefault(stored)) == if stored.Some? then Minutes(stored.value) else Unset
  {
    if stored.Some? {
      var n: nat := stored.value;
      assert FormDefault(stored) == NatToString(n);
      NatToStringParses(n);
    }
  }
}
