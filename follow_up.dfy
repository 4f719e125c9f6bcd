/**
 * The FollowUp sub-document of an appointment: a defaulted date, an optional
 * reply date and result, a list of notes, and a required, trimmed contact mode.
 */
module FollowUp {
  import opened Wrappers
  import opened Text
  import opened Schema

  datatype FollowUp = FollowUp(id: string, date: int, dateOfReply: Option<int>,
                               replyResult: Option<string>, notes: seq<Note>,
                               mode: Option<string>)

  const UnknownMode := "Unknown mode of requesting an followUp: '"
  const MissingMode := "No mode of requesting an followUp supplied"

  /** `new FollowUp({...})` at clock time `now`: the date defaults to `now`, the notes start empty. */
  function NewFollowUp(id: string, now: int, date: Option<int>, dateOfReply: Option<int>,
                       replyResult: Option<string>, mode: Option<string>): (f: FollowUp)
    ensures date.None? ==> f.date == now
    ensures date.Some? ==> f.date == date.value
    ensures f.notes == [] && f.mode == Trimmed(mode)
    ensures f.dateOfReply == dateOfReply && f.replyResult == replyResult && f.id == id
  {
    FollowUp(id, date.GetOr(now), dateOfReply, replyResult, [], Trimmed(mode))
  }

  /** Validation: at most one error, on `mode`. */
  function FollowUpErrors(f: FollowUp): (e: Errors)
    ensures e == map[] <==> Present(f.mode) && f.mode.value in Modes
    ensures forall p :: p in e ==> p == Field("mode")
  {
    FieldError(Field("mode"), ModeError(f.mode, UnknownMode, MissingMode))
  }

  /** `followUp.notes.push(note)`. */
  function PushNote(f: FollowUp, n: Note): (r: FollowUp)
    ensures |r.notes| == |f.notes| + 1 && r.notes[..|f.notes|] == f.notes && r.notes[|f.notes|] == n
    ensures r.(notes := f.notes) == f
  {
    f.(notes := f.notes + [n])
  }

  /** The mode rule on what the caller supplied (trim, then required, then enum). */
  lemma FollowUpModeRule(id: string, now: int, date: Option<int>, dateOfReply: Option<int>,
                         replyResult: Option<string>, mode: Option<string>)
    ensures var e := FollowUpErrors(NewFollowUp(id, now, date, dateOfReply, replyResult, mode));
            && (mode.None? || AllSpace(mode.value) ==> e == map[Field("mode") := MissingMode])
            && (mode.Some? && !AllSpace(mode.value) && Trim(mode.value) !in Modes ==>
                  e == map[Field("mode") := UnknownMode + Trim(mode.value) + "'"])
            && (mode.Some? && Trim(mode.value) in Modes ==> e == map[])
  {
    var f := NewFollowUp(id, now, date, dateOfReply, replyResult, mode);
    TrimmedPresentIff(mode);
    FieldErrorIs(Field("mode"), ModeError(f.mode, UnknownMode, MissingMode));
  }

  /** The reply date, the reply result and the notes carry no rule: changing them never changes the errors. */
  lemma FollowUpFreeFields(f: FollowUp, dateOfReply: Option<int>, replyResult: Option<string>, notes: seq<Note>)
    ensures FollowUpErrors(f.(dateOfReply := dateOfReply, replyResult := replyResult, notes := notes))
         == FollowUpErrors(f)
  {
  }

  /** Errors of every follow-up of a list, in list order. */
  function FollowUpErrorList(fs: seq<FollowUp>): (r: seq<Errors>)
    ensures |r| == |fs| && forall i :: 0 <= i < |fs| ==> r[i] == FollowUpErrors(fs[i])
  {
    seq(|fs|, i requires 0 <= i < |fs| => FollowUpErrors(fs[i]))
  }

  /** The error list of a list with one more follow-up is the old error list with that follow-up's errors appended. */
  lemma FollowUpErrorListAppend(fs: seq<FollowUp>, f: FollowUp)
    ensures FollowUpErrorList(fs + [f]) == FollowUpErrorList(fs) + [FollowUpErrors(f)]
  {
    var l, r := FollowUpErrorList(fs + [f]), FollowUpErrorList(fs) + [FollowUpErrors(f)];
    assert |l| == |r|;
    forall i | 0 <= i < |l| ensures l[i] == r[i] {
      if i < |fs| { assert (fs + [f])[i] == fs[i]; }
    }
  }
}
