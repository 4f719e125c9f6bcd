/**
 * The Partner sub-document of an agent: a required, trimmed name and email,
 * and four ordered lists (donations, notes, prayers, thank-yous).
 */
module Partner {
  import opened Wrappers
  import opened Text
  import opened Schema
  import opened Donation
  import opened ThankYou

  datatype Partner = Partner(id: string, email: Option<string>, name: Option<string>,
                             donations: seq<Donation>, notes: seq<Note>, prayers: seq<Note>,
                             thankYous: seq<ThankYou>)

  const NoEmail := "No email supplied"
  const NoName := "No name supplied"

  /** `new Partner({email, name})`: both strings go through the `trim` setter; every list starts empty. */
  function NewPartner(id: string, email: Option<string>, name: Option<string>): (p: Partner)
    ensures p.id == id && p.email == Trimmed(email) && p.name == Trimmed(name)
    ensures p.donations == [] && p.notes == [] && p.prayers == [] && p.thankYous == []
  {
    Partner(id, Trimmed(email), Trimmed(name), [], [], [], [])
  }

  function DonationErrorList(ds: seq<Donation>): (r: seq<Errors>)
    ensures |r| == |ds| && forall i :: 0 <= i < |ds| ==> r[i] == DonationErrors(ds[i])
  {
    seq(|ds|, i requires 0 <= i < |ds| => DonationErrors(ds[i]))
  }

  function ThankYouErrorList(ts: seq<ThankYou>): (r: seq<Errors>)
    ensures |r| == |ts| && forall i :: 0 <= i < |ts| ==> r[i] == ThankYouErrors(ts[i])
  {
    seq(|ts|, i requires 0 <= i < |ts| => ThankYouErrors(ts[i]))
  }

  /** The partner's own field rules: `email` and `name` are required. */
  function OwnErrors(p: Partner): (e: Errors)
    ensures forall k :: k in e ==> k == Field("email") || k == Field("name")
    ensures Field("email") in e <==> !Present(p.email)
    ensures Field("email") in e ==> e[Field("email")] == NoEmail
    ensures Field("name") in e <==> !Present(p.name)
    ensures Field("name") in e ==> e[Field("name")] == NoName
  {
    FieldError(Field("email"), if Present(p.email) then None else Some(NoEmail))
    + FieldError(Field("name"), if Present(p.name) then None else Some(NoName))
  }

  /** The errors of the donations and thank-yous, keyed under their list and index. */
  function SubErrors(p: Partner): (e: Errors)
    ensures forall k :: k in e ==> k.At?
  {
    Nested("donations", DonationErrorList(p.donations)) + Nested("thankYous", ThankYouErrorList(p.thankYous))
  }

  lemma SubErrorsEmptyIff(p: Partner)
    ensures SubErrors(p) == map[] <==>
              (forall i :: 0 <= i < |p.donations| ==> DonationErrors(p.donations[i]) == map[])
              && (forall i :: 0 <= i < |p.thankYous| ==> ThankYouErrors(p.thankYous[i]) == map[])
  {
    NestedEmptyIff("donations", DonationErrorList(p.donations));
    NestedEmptyIff("thankYous", ThankYouErrorList(p.thankYous));
  }

  /** Every rule of the schema and of its donations and thank-yous, keyed per field; notes and prayers carry no rule. */
  function PartnerErrors(p: Partner): (e: Errors)
    ensures forall k :: k in e ==> k == Field("email") || k == Field("name")
                                   || (k.At? && (k.list == "donations" || k.list == "thankYous"))
  {
    OwnErrors(p) + SubErrors(p)
  }

  /** A partner is accepted exactly when its own fields are present and every donation and thank-you is accepted. */
  predicate PartnerClean(p: Partner) {
    && Present(p.email) && Present(p.name)
    && (forall i :: 0 <= i < |p.donations| ==> DonationErrors(p.donations[i]) == map[])
    && (forall i :: 0 <= i < |p.thankYous| ==> ThankYouErrors(p.thankYous[i]) == map[])
  }

  /**
   * Errors are keyed per field: `email` holds "No email supplied" exactly
   * when the email is missing or empty, `name` holds "No name supplied"
   * exactly when the name is; and the partner reports nothing exactly when
   * it and all its sub-documents are clean.
   */
  lemma PartnerFieldRules(p: Partner)
    ensures var e := PartnerErrors(p);
            && (Field("email") in e <==> !Present(p.email))
            && (Field("email") in e ==> e[Field("email")] == NoEmail)
            && (Field("name") in e <==> !Present(p.name))
            && (Field("name") in e ==> e[Field("name")] == NoName)
    ensures PartnerErrors(p) == map[] <==> PartnerClean(p)
  {
    var own, sub := OwnErrors(p), SubErrors(p);
    SubErrorsEmptyIff(p);
    assert Field("email") !in sub && Field("name") !in sub;
    if PartnerErrors(p) == map[] {
      assert own == map[] by { assert forall k :: k in own ==> k in PartnerErrors(p); }
      assert sub == map[] by { assert forall k :: k in sub ==> k in PartnerErrors(p); }
    }
  }

  /** A partner with a name but a blank email reports only the email error, and symmetrically for the name. */
  lemma OneMissingFieldOneError(p: Partner)
    requires forall i :: 0 <= i < |p.donations| ==> DonationErrors(p.donations[i]) == map[]
    requires forall i :: 0 <= i < |p.thankYous| ==> ThankYouErrors(p.thankYous[i]) == map[]
    ensures Present(p.name) && !Present(p.email) ==> PartnerErrors(p) == map[Field("email") := NoEmail]
    ensures Present(p.email) && !Present(p.name) ==> PartnerErrors(p) == map[Field("name") := NoName]
  {
    SubErrorsEmptyIff(p);
    var own := OwnErrors(p);
    AddNothing(own, SubErrors(p));
    if Present(p.name) && !Present(p.email) {
      OnlyError(own, Field("email"));
    }
    if Present(p.email) && !Present(p.name) {
      OnlyError(own, Field("name"));
    }
  }

  /**
   * On what the caller supplied: a new partner has an `email` error exactly
   * when the email is missing or all whitespace, a `name` error exactly when
   * the name is, and no other error.
   */
  lemma NewPartnerErrors(id: string, email: Option<string>, name: Option<string>)
    ensures var e := PartnerErrors(NewPartner(id, email, name));
            && (Field("email") in e <==> email.None? || AllSpace(email.value))
            && (Field("name") in e <==> name.None? || AllSpace(name.value))
            && (forall k :: k in e ==> k == Field("email") || k == Field("name"))
  {
    TrimmedPresentIff(email);
    TrimmedPresentIff(name);
    PartnerFieldRules(NewPartner(id, email, name));
  }

  /* ---------- the embedded lists ---------- */

  /** `partner.donations.push(donation)`. */
  function PushDonation(p: Partner, d: Donation): (r: Partner)
    ensures |r.donations| == |p.donations| + 1 && r.donations[..|p.donations|] == p.donations
    ensures r.donations[|p.donations|] == d
    ensures r.(donations := p.donations) == p
  {
    p.(donations := p.donations + [d])
  }

  /** `partner.thankYous.push(thankYou)`. */
  function PushThankYou(p: Partner, t: ThankYou): (r: Partner)
    ensures |r.thankYous| == |p.thankYous| + 1 && r.thankYous[..|p.thankYous|] == p.thankYous
    ensures r.thankYous[|p.thankYous|] == t
    ensures r.(thankYous := p.thankYous) == p
  {
    p.(thankYous := p.thankYous + [t])
  }

  /** `partner.notes.push(note)`: notes carry no rule, so the errors stay as they were. */
  function PushNote(p: Partner, n: Note): (r: Partner)
    ensures |r.notes| == |p.notes| + 1 && r.notes[..|p.notes|] == p.notes && r.notes[|p.notes|] == n
    ensures r.(notes := p.notes) == p
    ensures PartnerErrors(r) == PartnerErrors(p)
  {
    p.(notes := p.notes + [n])
  }

  /** `partner.prayers.push(prayer)`: prayer text carries no rule, so the errors stay as they were. */
  function PushPrayer(p: Partner, n: Note): (r: Partner)
    ensures |r.prayers| == |p.prayers| + 1 && r.prayers[..|p.prayers|] == p.prayers && r.prayers[|p.prayers|] == n
    ensures r.(prayers := p.prayers) == p
    ensures PartnerErrors(r) == PartnerErrors(p)
  {
    p.(prayers := p.prayers + [n])
  }

  lemma DonationErrorListAppend(ds: seq<Donation>, d: Donation)
    ensures DonationErrorList(ds + [d]) == DonationErrorList(ds) + [DonationErrors(d)]
  {
    var l, r := DonationErrorList(ds + [d]), DonationErrorList(ds) + [DonationErrors(d)];
    assert |l| == |r|;
    forall i | 0 <= i < |l| ensures l[i] == r[i] {
      if i < |ds| { assert (ds + [d])[i] == ds[i]; }
    }
  }

  lemma ThankYouErrorListAppend(ts: seq<ThankYou>, t: ThankYou)
    ensures ThankYouErrorList(ts + [t]) == ThankYouErrorList(ts) + [ThankYouErrors(t)]
  {
    var l, r := ThankYouErrorList(ts + [t]), ThankYouErrorList(ts) + [ThankYouErrors(t)];
    assert |l| == |r|;
    forall i | 0 <= i < |l| ensures l[i] == r[i] {
      if i < |ts| { assert (ts + [t])[i] == ts[i]; }
    }
  }

  /** The own-field errors read only the email and the name. */
  lemma OwnErrorsSameFields(p: Partner, q: Partner)
    requires p.email == q.email && p.name == q.name
    ensures OwnErrors(p) == OwnErrors(q)
  {
  }

  /** Pushing a donation that has an amount leaves the partner's errors exactly as they were. */
  lemma PushValidDonationKeepsErrors(p: Partner, d: Donation)
    requires d.amount.Some?
    ensures PartnerErrors(PushDonation(p, d)) == PartnerErrors(p)
  {
    var r := p.(donations := p.donations + [d]);
    DonationErrorListAppend(p.donations, d);
    NestedAppendClean("donations", DonationErrorList(p.donations), DonationErrors(d));
    OwnErrorsSameFields(r, p);
    assert SubErrors(r) == SubErrors(p);
  }

  /** Pushing a thank-you with a known mode leaves the partner's errors exactly as they were. */
  lemma PushValidThankYouKeepsErrors(p: Partner, t: ThankYou)
    requires Present(t.mode) && t.mode.value in Modes
    ensures PartnerErrors(PushThankYou(p, t)) == PartnerErrors(p)
  {
    var r := p.(thankYous := p.thankYous + [t]);
    ThankYouErrorListAppend(p.thankYous, t);
    NestedAppendClean("thankYous", ThankYouErrorList(p.thankYous), ThankYouErrors(t));
    OwnErrorsSameFields(r, p);
    assert SubErrors(r) == SubErrors(p);
  }
}
