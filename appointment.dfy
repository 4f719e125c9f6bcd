/**
 * The Appointment schema: a request date, a follow-up date that must come
 * strictly after it, an optional reply, a required and trimmed request mode,
 * and lists of notes and follow-ups.
 */
module Appointment {
  import opened Wrappers
  import opened Text
  import opened Schema
  import opened FollowUp

  datatype Appointment = Appointment(id: string, dateOfRequest: int, followUpOn: int,
                                     dateOfReply: Option<int>, replyResult: Option<string>,
                                     notes: seq<Note>, requestMode: Option<string>,
                                     followUps: seq<FollowUp>)

  /** Nine days in milliseconds: 60000 * 60 * 24 * 9. */
  const NineDays: int := 777600000

  const TimeTraveller := "You are not a time traveller"
  const UnknownMode := "Unknown mode of requesting an appointment: '"
  const MissingMode := "No mode of requesting an appointment supplied"

  /* ---------- defaults ---------- */

  /**
   * The `followUpOn` default as written: the expression is evaluated once,
   * when the schema is built at `schemaBuiltAt`, so every document gets the
   * same instant.
   */
  function FollowUpDefaultAsWritten(schemaBuiltAt: int): int {
    schemaBuiltAt + NineDays
  }

  /**
   * `new Appointment({...})` as the schema is written: request date defaults
   * to `now`, follow-up date to the schema constant; the reply fields are
   * kept as given.
   */
  function NewAppointmentAsWritten(id: string, schemaBuiltAt: int, now: int,
                                   dateOfRequest: Option<int>, followUpOn: Option<int>,
                                   dateOfReply: Option<int>, replyResult: Option<string>,
                                   requestMode: Option<string>): (a: Appointment)
    ensures a.dateOfRequest == dateOfRequest.GetOr(now)
    ensures a.followUpOn == followUpOn.GetOr(FollowUpDefaultAsWritten(schemaBuiltAt))
    ensures a.notes == [] && a.followUps == [] && a.requestMode == Trimmed(requestMode)
    ensures a.dateOfReply == dateOfReply && a.replyResult == replyResult && a.id == id
  {
    Appointment(id, dateOfRequest.GetOr(now), followUpOn.GetOr(FollowUpDefaultAsWritten(schemaBuiltAt)),
                dateOfReply, replyResult, [], Trimmed(requestMode), [])
  }

  /**
   * `new Appointment({...})` with the follow-up default the tests describe
   * ("nine days after appointment request"): an absent `followUpOn` is the
   * document's own request date plus nine days. The reply fields are kept
   * as given.
   */
  function NewAppointment(id: string, now: int, dateOfRequest: Option<int>, followUpOn: Option<int>,
                          dateOfReply: Option<int>, replyResult: Option<string>,
                          requestMode: Option<string>): (a: Appointment)
    ensures dateOfRequest.None? ==> a.dateOfRequest == now
    ensures dateOfRequest.Some? ==> a.dateOfRequest == dateOfRequest.value
    ensures followUpOn.None? ==> a.followUpOn == a.dateOfRequest + NineDays
    ensures followUpOn.Some? ==> a.followUpOn == followUpOn.value
    ensures a.notes == [] && a.followUps == [] && a.requestMode == Trimmed(requestMode)
    ensures a.dateOfReply == dateOfReply && a.replyResult == replyResult && a.id == id
  {
    var requested := dateOfRequest.GetOr(now);
    Appointment(id, requested, followUpOn.GetOr(requested + NineDays), dateOfReply, replyResult, [],
                Trimmed(requestMode), [])
  }

  /* ---------- validation ---------- */

  /** The `followUpOn` validator, evaluated against the document's current `dateOfRequest`. */
  function FollowUpOnError(a: Appointment): (m: Option<string>)
    ensures m.None? <==> a.followUpOn > a.dateOfRequest
    ensures m.Some? ==> m.value == TimeTraveller
  {
    if a.followUpOn > a.dateOfRequest then None else Some(TimeTraveller)
  }

  /** Every rule of the schema and of its follow-ups; notes carry no rule. */
  function AppointmentErrors(a: Appointment): (e: Errors)
    ensures forall k :: k in e ==> k == Field("followUpOn") || k == Field("requestMode")
                                   || (k.At? && k.list == "followUps" && k.index < |a.followUps|)
  {
    FieldError(Field("followUpOn"), FollowUpOnError(a))
    + FieldError(Field("requestMode"), ModeError(a.requestMode, UnknownMode, MissingMode))
    + Nested("followUps", FollowUpErrorList(a.followUps))
  }

  /**
   * The date rule: there is an error on `followUpOn` exactly when it is not
   * strictly after the current `dateOfRequest`, and then it is the
   * time-traveller message. Since the rule reads the current request date,
   * moving `dateOfRequest` later can invalidate a follow-up date that was valid.
   */
  lemma FollowUpOnRule(a: Appointment)
    ensures Field("followUpOn") in AppointmentErrors(a) <==> a.followUpOn <= a.dateOfRequest
    ensures Field("followUpOn") in AppointmentErrors(a) ==>
              AppointmentErrors(a)[Field("followUpOn")] == TimeTraveller
  {
    var m := FieldError(Field("requestMode"), ModeError(a.requestMode, UnknownMode, MissingMode));
    var n := Nested("followUps", FollowUpErrorList(a.followUps));
    assert Field("followUpOn") !in m && Field("followUpOn") !in n;
  }

  /** With a known mode and clean follow-ups, a follow-up date not after the request date is the only error. */
  lemma TimeTravelOnlyError(a: Appointment)
    requires a.followUpOn <= a.dateOfRequest && Present(a.requestMode) && a.requestMode.value in Modes
    requires forall i :: 0 <= i < |a.followUps| ==> FollowUpErrors(a.followUps[i]) == map[]
    ensures AppointmentErrors(a) == map[Field("followUpOn") := TimeTraveller]
  {
    var d := FieldError(Field("followUpOn"), FollowUpOnError(a));
    var m := FieldError(Field("requestMode"), ModeError(a.requestMode, UnknownMode, MissingMode));
    var n := Nested("followUps", FollowUpErrorList(a.followUps));
    FollowUpsClean(a.followUps);
    FieldErrorIs(Field("followUpOn"), FollowUpOnError(a));
    AddNothing(d + m, n);
    AddNothing(d, m);
  }

  /** Follow-ups that are each clean add no error under `followUps`. */
  lemma FollowUpsClean(fs: seq<FollowUp>)
    requires forall i :: 0 <= i < |fs| ==> FollowUpErrors(fs[i]) == map[]
    ensures Nested("followUps", FollowUpErrorList(fs)) == map[]
  {
    NestedEmptyIff("followUps", FollowUpErrorList(fs));
  }

  /**
   * The request-mode rule on what the caller supplied: trimmed, then
   * required, then one of the four modes; each failure is the entry under
   * `requestMode`, whatever the dates are.
   */
  lemma RequestModeRule(id: string, now: int, dateOfRequest: Option<int>, followUpOn: Option<int>,
                        dateOfReply: Option<int>, replyResult: Option<string>, requestMode: Option<string>)
    ensures var e := AppointmentErrors(NewAppointment(id, now, dateOfRequest, followUpOn, dateOfReply, replyResult,
                                                      requestMode));
            && (requestMode.None? || AllSpace(requestMode.value) ==>
                  Field("requestMode") in e && e[Field("requestMode")] == MissingMode)
            && (requestMode.Some? && !AllSpace(requestMode.value) && Trim(requestMode.value) !in Modes ==>
                  Field("requestMode") in e
                  && e[Field("requestMode")] == UnknownMode + Trim(requestMode.value) + "'")
            && (requestMode.Some? && Trim(requestMode.value) in Modes ==> Field("requestMode") !in e)
  {
    TrimmedPresentIff(requestMode);
    RequestModeKey(NewAppointment(id, now, dateOfRequest, followUpOn, dateOfReply, replyResult, requestMode));
  }

  /**
   * With a follow-up date after the request date and no follow-ups, the
   * mode rule is the only rule that can fail: the errors are its verdict alone.
   */
  lemma OnlyModeCanFail(a: Appointment)
    requires a.followUpOn > a.dateOfRequest && a.followUps == []
    ensures AppointmentErrors(a) == FieldError(Field("requestMode"), ModeError(a.requestMode, UnknownMode, MissingMode))
  {
    var d := FieldError(Field("followUpOn"), FollowUpOnError(a));
    var m := FieldError(Field("requestMode"), ModeError(a.requestMode, UnknownMode, MissingMode));
    var n := Nested("followUps", FollowUpErrorList(a.followUps));
    assert n == map[];
    FieldErrorIs(Field("followUpOn"), FollowUpOnError(a));
    AddNothing(d + m, n);
    assert d + m == m;
  }

  /**
   * A new appointment whose follow-up date is left to the default reports
   * exactly one error when its mode is missing, blank or unknown, and none
   * when the mode is known.
   */
  lemma RequestModeOnlyError(id: string, now: int, dateOfRequest: Option<int>,
                             dateOfReply: Option<int>, replyResult: Option<string>, requestMode: Option<string>)
    ensures var e := AppointmentErrors(NewAppointment(id, now, dateOfRequest, None, dateOfReply, replyResult,
                                                      requestMode));
            && (requestMode.None? || AllSpace(requestMode.value) ==> e == map[Field("requestMode") := MissingMode])
            && (requestMode.Some? && !AllSpace(requestMode.value) && Trim(requestMode.value) !in Modes ==>
                  e == map[Field("requestMode") := UnknownMode + Trim(requestMode.value) + "'"])
            && (requestMode.Some? && Trim(requestMode.value) in Modes ==> e == map[])
  {
    var a := NewAppointment(id, now, dateOfRequest, None, dateOfReply, replyResult, requestMode);
    TrimmedPresentIff(requestMode);
    OnlyModeCanFail(a);
    FieldErrorIs(Field("requestMode"), ModeError(a.requestMode, UnknownMode, MissingMode));
  }

  /**
   * The same with the default as written, as long as the request date is
   * still before the schema's fixed follow-up instant (true for nine days
   * after the process starts when the request date is left to the clock).
   */
  lemma RequestModeOnlyErrorAsWritten(id: string, schemaBuiltAt: int, now: int, dateOfRequest: Option<int>,
                                      dateOfReply: Option<int>, replyResult: Option<string>,
                                      requestMode: Option<string>)
    requires dateOfRequest.GetOr(now) < schemaBuiltAt + NineDays
    ensures var e := AppointmentErrors(NewAppointmentAsWritten(id, schemaBuiltAt, now, dateOfRequest, None,
                                                               dateOfReply, replyResult, requestMode));
            && (requestMode.None? || AllSpace(requestMode.value) ==> e == map[Field("requestMode") := MissingMode])
            && (requestMode.Some? && !AllSpace(requestMode.value) && Trim(requestMode.value) !in Modes ==>
                  e == map[Field("requestMode") := UnknownMode + Trim(requestMode.value) + "'"])
            && (requestMode.Some? && Trim(requestMode.value) in Modes ==> e == map[])
  {
    var a := NewAppointmentAsWritten(id, schemaBuiltAt, now, dateOfRequest, None, dateOfReply, replyResult,
                                     requestMode);
    TrimmedPresentIff(requestMode);
    OnlyModeCanFail(a);
    FieldErrorIs(Field("requestMode"), ModeError(a.requestMode, UnknownMode, MissingMode));
  }

  /** The `requestMode` entry of the errors is exactly the mode rule's verdict. */
  lemma RequestModeKey(a: Appointment)
    ensures var m := ModeError(a.requestMode, UnknownMode, MissingMode);
            && (Field("requestMode") in AppointmentErrors(a) <==> m.Some?)
            && (m.Some? ==> AppointmentErrors(a)[Field("requestMode")] == m.value)
  {
    var n := Nested("followUps", FollowUpErrorList(a.followUps));
    assert Field("requestMode") !in n;
  }

  /* ---------- the stale default ---------- */

  /** As written, the default follow-up date does not depend on when a document is created. */
  lemma DefaultFollowUpIsOneConstant(schemaBuiltAt: int, now1: int, now2: int, dateOfRequest: Option<int>,
                                     dateOfReply: Option<int>, replyResult: Option<string>,
                                     requestMode: Option<string>)
    ensures var a := NewAppointmentAsWritten("a", schemaBuiltAt, now1, dateOfRequest, None, dateOfReply, replyResult,
                                             requestMode);
            var b := NewAppointmentAsWritten("b", schemaBuiltAt, now2, dateOfRequest, None, dateOfReply, replyResult,
                                             requestMode);
            a.followUpOn == b.followUpOn == schemaBuiltAt + NineDays
  {
  }

  /**
   * As written, once the process has been running nine days, an appointment
   * created with both dates left to their defaults is rejected as time
   * travel, whatever else it holds.
   */
  lemma StaleDefaultRejected(id: string, schemaBuiltAt: int, now: int,
                             dateOfReply: Option<int>, replyResult: Option<string>, requestMode: Option<string>)
    requires now >= schemaBuiltAt + NineDays
    ensures var a := NewAppointmentAsWritten(id, schemaBuiltAt, now, None, None, dateOfReply, replyResult, requestMode);
            Field("followUpOn") in AppointmentErrors(a)
            && AppointmentErrors(a)[Field("followUpOn")] == TimeTraveller
  {
    var a := NewAppointmentAsWritten(id, schemaBuiltAt, now, None, None, dateOfReply, replyResult, requestMode);
    FollowUpOnRule(a);
  }

  /** With the per-document default, an appointment whose follow-up date is left to the default never breaks the date rule. */
  lemma DefaultFollowUpAlwaysLater(id: string, now: int, dateOfRequest: Option<int>,
                                   dateOfReply: Option<int>, replyResult: Option<string>, requestMode: Option<string>)
    ensures var a := NewAppointment(id, now, dateOfRequest, None, dateOfReply, replyResult, requestMode);
            Field("followUpOn") !in AppointmentErrors(a)
  {
    FollowUpOnRule(NewAppointment(id, now, dateOfRequest, None, dateOfReply, replyResult, requestMode));
  }

  /* ---------- the embedded lists ---------- */

  /** `appointment.notes.push(note)`: notes carry no rule, so the errors stay as they were. */
  function PushNote(a: Appointment, n: Note): (r: Appointment)
    ensures |r.notes| == |a.notes| + 1 && r.notes[..|a.notes|] == a.notes && r.notes[|a.notes|] == n
    ensures r.(notes := a.notes) == a
    ensures AppointmentErrors(r) == AppointmentErrors(a)
  {
    a.(notes := a.notes + [n])
  }

  /** `appointment.followUps.push(followUp)`. */
  function PushFollowUp(a: Appointment, f: FollowUp): (r: Appointment)
    ensures |r.followUps| == |a.followUps| + 1 && r.followUps[..|a.followUps|] == a.followUps
    ensures r.followUps[|a.followUps|] == f
    ensures r.(followUps := a.followUps) == a
  {
    a.(followUps := a.followUps + [f])
  }

  /** Pushing a follow-up that is itself valid leaves the appointment's errors exactly as they were. */
  lemma PushValidFollowUpKeepsErrors(a: Appointment, f: FollowUp)
    requires FollowUpErrors(f) == map[]
    ensures AppointmentErrors(PushFollowUp(a, f)) == AppointmentErrors(a)
  {
    var r := PushFollowUp(a, f);
    assert r.followUps == a.followUps + [f];
    assert FollowUpOnError(r) == FollowUpOnError(a) && r.requestMode == a.requestMode;
    FollowUpErrorListAppend(a.followUps, f);
    NestedAppendClean("followUps", FollowUpErrorList(a.followUps), FollowUpErrors(f));
  }
}
