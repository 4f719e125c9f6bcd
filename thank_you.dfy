/** The ThankYou sub-document of a partner: a defaulted date and a required, trimmed contact mode. */
module ThankYou {
  import opened Wrappers
  import opened Text
  import opened Schema

  datatype ThankYou = ThankYou(id: string, date: int, mode: Option<string>)

  const UnknownMode := "Unknown mode of expressing thanks: '"
  const MissingMode := "No mode of expressing thanks supplied"

  /** `new ThankYou({date, mode})` at clock time `now`: the date defaults to `now`, the mode is trimmed. */
  function NewThankYou(id: string, now: int, date: Option<int>, mode: Option<string>): (t: ThankYou)
    ensures date.None? ==> t.date == now
    ensures date.Some? ==> t.date == date.value
    ensures t.mode == Trimmed(mode) && t.id == id
  {
    ThankYou(id, date.GetOr(now), Trimmed(mode))
  }

  /** Validation: at most one error, on `mode`. */
  function ThankYouErrors(t: ThankYou): (e: Errors)
    ensures e == map[] <==> Present(t.mode) && t.mode.value in Modes
    ensures forall p :: p in e ==> p == Field("mode")
  {
    FieldError(Field("mode"), ModeError(t.mode, UnknownMode, MissingMode))
  }

  /**
   * The mode rule on what the caller supplied: the value is trimmed before
   * the enum check, so " Phone " is accepted; a missing or blank mode gives
   * the one "not supplied" error; any other value gives the one "unknown
   * mode" error quoting the trimmed value.
   */
  lemma ThankYouModeRule(id: string, now: int, date: Option<int>, mode: Option<string>)
    ensures var e := ThankYouErrors(NewThankYou(id, now, date, mode));
            && (mode.None? || AllSpace(mode.value) ==> e == map[Field("mode") := MissingMode])
            && (mode.Some? && !AllSpace(mode.value) && Trim(mode.value) !in Modes ==>
                  e == map[Field("mode") := UnknownMode + Trim(mode.value) + "'"])
            && (mode.Some? && Trim(mode.value) in Modes ==> e == map[])
  {
    TrimmedPresentIff(mode);
  }
}
