/**
 * The `/partner` routes. A request carries the session's agent id, which is
 * turned back into an agent by reading the agent collection; a session whose
 * agent no longer exists counts as signed out. A partner is looked up only
 * in the signed-in agent's own list.
 */
module PartnerRoutes {
  import opened Wrappers
  import opened Text
  import opened Schema
  import opened Partner
  import PartnerSchema = Partner
  import opened Agent

  datatype Flash = Flash(kind: string, message: string)

  /** What a handler sends back. */
  datatype Response =
    | Status(code: int)                                              // res.sendStatus(code)
    | StatusText(code: int, text: string, flash: Flash)              // res.status(code).send(text)
    | Redirect(location: string, flash: Flash)
    | RedirectFlashingErrors(location: string, errors: Errors)       // one 'error' flash per validation error
    | Render(view: string, agent: AgentRecord, partner: Partner, errors: Errors)

  const LoginFirst := Flash("info", "Login first")
  const ShowMissing := Flash("error", "That partner does not exist")
  const EditMissing := Flash("error", "You have no such partner")
  const Unauthorized := "You are unauthorized"
  const UpdateDone := Flash("success", "Update successful")

  /** `deserializeUser`: the session's agent, if it is still stored. */
  function Deserialize(records: map<AgentId, AgentRecord>, session: Option<AgentId>): (user: Option<AgentRecord>)
    ensures user.Some? <==> session.Some? && session.value in records
    ensures user.Some? ==> user.value == records[session.value]
  {
    if session.Some? && session.value in records then Some(records[session.value]) else None
  }

  /** `partners.find(p => p._id.toString() === id)`: the index of the first partner with that id. */
  function FindPartner(ps: seq<Partner>, id: string): (r: Option<nat>)
    ensures r.Some? ==> r.value < |ps| && ps[r.value].id == id
                        && forall k :: 0 <= k < r.value ==> ps[k].id != id
    ensures r.None? <==> forall k :: 0 <= k < |ps| ==> ps[k].id != id
  {
    if ps == [] then None
    else if ps[0].id == id then Some(0)
    else match FindPartner(ps[1..], id)
      case None => None
      case Some(k) => Some(k + 1)
  }

  /** A form field, when the form sent it. */
  function Lookup(body: map<string, string>, key: string): (v: Option<string>)
    ensures v.Some? <==> key in body
    ensures v.Some? ==> v.value == body[key]
  {
    if key in body then Some(body[key]) else None
  }

  /**
   * The pages of one partner: signed out, absent from the agent's own list,
   * or rendered with the first partner in that list holding the id.
   */
  function PartnerPage(records: map<AgentId, AgentRecord>, session: Option<AgentId>, id: string,
                       view: string, missing: Flash): (resp: Response)
    ensures Deserialize(records, session).None? ==> resp == Redirect("/", LoginFirst)
    ensures Deserialize(records, session).Some? ==>
              var user := Deserialize(records, session).value;
              && (resp.Render? <==> exists k :: 0 <= k < |user.partners| && user.partners[k].id == id)
              && (!resp.Render? ==> resp == Redirect("/", missing))
              && (resp.Render? ==> resp.view == view && resp.agent == user && resp.errors == map[]
                                   && resp.partner in user.partners && resp.partner.id == id
                                   && FindPartner(user.partners, id).Some?
                                   && resp.partner == user.partners[FindPartner(user.partners, id).value])
  {
    match Deserialize(records, session)
    case None => Redirect("/", LoginFirst)
    case Some(user) =>
      match FindPartner(user.partners, id)
      case None => Redirect("/", missing)
      case Some(i) => Render(view, user, user.partners[i], map[])
  }

  /** GET /partner/:id. */
  function ShowPartner(records: map<AgentId, AgentRecord>, session: Option<AgentId>, id: string): (resp: Response)
    ensures Deserialize(records, session).None? ==> resp == Redirect("/", LoginFirst)
    ensures Deserialize(records, session).Some? && !resp.Render? ==> resp == Redirect("/", ShowMissing)
    ensures resp.Render? ==> && resp.view == "partner/show" && resp.errors == map[]
                             && Deserialize(records, session) == Some(resp.agent)
                             && resp.partner.id == id && resp.partner in resp.agent.partners
                             && FindPartner(resp.agent.partners, id).Some?
                             && resp.partner == resp.agent.partners[FindPartner(resp.agent.partners, id).value]
  {
    PartnerPage(records, session, id, "partner/show", ShowMissing)
  }

  /** GET /partner/:id/edit. */
  function EditPartnerForm(records: map<AgentId, AgentRecord>, session: Option<AgentId>, id: string): (resp: Response)
    ensures Deserialize(records, session).None? ==> resp == Redirect("/", LoginFirst)
    ensures Deserialize(records, session).Some? && !resp.Render? ==> resp == Redirect("/", EditMissing)
    ensures resp.Render? ==> && resp.view == "partner/edit" && resp.errors == map[]
                             && Deserialize(records, session) == Some(resp.agent)
                             && resp.partner.id == id && resp.partner in resp.agent.partners
                             && FindPartner(resp.agent.partners, id).Some?
                             && resp.partner == resp.agent.partners[FindPartner(resp.agent.partners, id).value]
  {
    PartnerPage(records, session, id, "partner/edit", EditMissing)
  }

  /**
   * A partner that belongs to another agent is as absent as one that does
   * not exist: both pages redirect home with their not-found message.
   */
  lemma OtherAgentsPartnerHidden(records: map<AgentId, AgentRecord>, session: Option<AgentId>, id: string)
    requires Deserialize(records, session).Some?
    requires forall k :: 0 <= k < |Deserialize(records, session).value.partners| ==>
               Deserialize(records, session).value.partners[k].id != id
    ensures ShowPartner(records, session, id) == Redirect("/", ShowMissing)
    ensures EditPartnerForm(records, session, id) == Redirect("/", EditMissing)
  {
  }

  /* ---------- PUT /partner/:id: the form loop ---------- */

  /** `partner[param] = value` when `value.trim()` is not empty; the setter stores the trimmed value. */
  function Assigned(current: Option<string>, body: map<string, string>, param: string): Option<string> {
    if param in body && Trim(body[param]) != "" then Some(Trim(body[param])) else current
  }

  /** The partner after the form loop has visited every field. */
  function EditedPartner(p: Partner, body: map<string, string>): (q: Partner)
    ensures q.(email := p.email, name := p.name) == p
    ensures q.email == p.email || ("email" in body && q.email == Some(Trim(body["email"])))
    ensures q.name == p.name || ("name" in body && q.name == Some(Trim(body["name"])))
  {
    p.(email := Assigned(p.email, body, "email"), name := Assigned(p.name, body, "name"))
  }

  /**
   * A field changes exactly when the form sends it with something other
   * than whitespace, and then becomes that value trimmed; nothing but the
   * email and name ever changes.
   */
  lemma EditedFieldRule(p: Partner, body: map<string, string>)
    ensures var q := EditedPartner(p, body);
            && (if "email" in body && !AllSpace(body["email"]) then q.email == Some(Trim(body["email"])) else q.email == p.email)
            && (if "name" in body && !AllSpace(body["name"]) then q.name == Some(Trim(body["name"])) else q.name == p.name)
            && q.id == p.id && q.donations == p.donations && q.notes == p.notes
            && q.prayers == p.prayers && q.thankYous == p.thankYous
  {
    if "email" in body { TrimEmptyIff(body["email"]); }
    if "name" in body { TrimEmptyIff(body["name"]); }
  }

  /** Submitting the same form twice changes nothing the second time. */
  lemma EditIdempotent(p: Partner, body: map<string, string>)
    ensures EditedPartner(EditedPartner(p, body), body) == EditedPartner(p, body)
  {
  }

  /** A blank field never blanks a required one: an edited partner keeps every present email and name. */
  lemma EditKeepsPresentFields(p: Partner, body: map<string, string>)
    ensures Present(p.email) ==> Present(EditedPartner(p, body).email)
    ensures Present(p.name) ==> Present(EditedPartner(p, body).name)
    ensures OwnErrors(p) == map[] ==> OwnErrors(EditedPartner(p, body)) == map[]
  {
    var q := EditedPartner(p, body);
    if OwnErrors(p) == map[] {
      assert Field("email") !in OwnErrors(p) && Field("name") !in OwnErrors(p);
      assert Present(q.email) && Present(q.name);
      assert forall k :: k !in OwnErrors(q);
    }
  }

  /**
   * The `for (const param in req.body)` loop, in whatever order the fields
   * come: each field with a non-blank value is assigned through the `trim`
   * setter, the others are skipped.
   */
  method ApplyBody(p: Partner, body: map<string, string>) returns (q: Partner)
    ensures q == EditedPartner(p, body)
  {
    q := p;
    var pending := body.Keys;
    while pending != {}
      invariant pending <= body.Keys
      invariant q.email == (if "email" in pending then p.email else Assigned(p.email, body, "email"))
      invariant q.name == (if "name" in pending then p.name else Assigned(p.name, body, "name"))
      invariant q.(email := p.email, name := p.name) == p
      decreases pending
    {
      var param :| param in pending;
      if Trim(body[param]) != "" {
        if param == "email" {
          q := q.(email := Trimmed(Some(body[param])));
        } else if param == "name" {
          q := q.(name := Trimmed(Some(body[param])));
        }
      }
      pending := pending - {param};
    }
  }

  /* ---------- POST /partner and PUT /partner/:id ---------- */

  /**
   * POST /partner: signed out gives 401; otherwise the agent is re-read, the
   * new partner goes to the head of its list and the agent is saved. On
   * success the page of the new partner is next; on failure every
   * validation message is flashed and nothing is written.
   */
  method PostPartner(store: AgentStore, session: Option<AgentId>, body: map<string, string>,
                     freshId: string, hash: string -> HashOutcome) returns (resp: Response)
    requires store.Valid()
    requires session.Some? && session.value in store.records ==>
               forall k :: 0 <= k < |store.records[session.value].partners| ==>
                 store.records[session.value].partners[k].id != freshId
    modifies store
    ensures store.Valid()
    ensures Deserialize(old(store.records), session).None? ==>
              resp == Status(401) && store.records == old(store.records)
    ensures Deserialize(old(store.records), session).Some? ==>
              var user := Deserialize(old(store.records), session).value;
              var p := NewPartner(freshId, Lookup(body, "email"), Lookup(body, "name"));
              var candidate := user.(partners := [p] + user.partners);
              var errs := AgentErrors(candidate, old(store.records));
              && (errs == map[] ==>
                    && resp == Redirect("/partner/" + freshId, Flash("success", "Added " + Show(p.name) + " to prayer chain"))
                    && store.records == old(store.records)[user.id := candidate])
              && (errs != map[] ==> resp == RedirectFlashingErrors("/", errs) && store.records == old(store.records))
  {
    if session.None? || session.value !in store.records {
      return Status(401);
    }
    var agent := store.FindById(session.value);
    var p := NewPartner(freshId, Lookup(body, "email"), Lookup(body, "name"));
    agent.UnshiftPartner(p);
    var outcome := agent.Save(store, hash);
    if outcome == Saved {
      resp := Redirect("/partner/" + p.id, Flash("success", "Added " + Show(p.name) + " to prayer chain"));
    } else {
      resp := RedirectFlashingErrors("/", if outcome.Invalid? then outcome.errors else map[]);
    }
  }

  /**
   * PUT /partner/:id: signed out gives the login redirect; a partner not in
   * the agent's own list gives 401; otherwise the form is applied to that
   * partner in place and the agent saved. On success only that partner's
   * email and name have changed; on failure nothing is written and the
   * edit form is shown again with the errors.
   */
  method PutPartner(store: AgentStore, session: Option<AgentId>, id: string, body: map<string, string>,
                    hash: string -> HashOutcome) returns (resp: Response)
    requires store.Valid()
    modifies store
    ensures store.Valid()
    ensures Deserialize(old(store.records), session).None? ==>
              resp == Redirect("/", LoginFirst) && store.records == old(store.records)
    ensures Deserialize(old(store.records), session).Some? ==>
              var user := Deserialize(old(store.records), session).value;
              && (FindPartner(user.partners, id).None? ==>
                    resp == StatusText(401, Unauthorized, Flash("error", Unauthorized))
                    && store.records == old(store.records))
              && (FindPartner(user.partners, id).Some? ==>
                    var i := FindPartner(user.partners, id).value;
                    var edited := EditedPartner(user.partners[i], body);
                    var candidate := user.(partners := user.partners[i := edited]);
                    var errs := AgentErrors(candidate, old(store.records));
                    && (errs == map[] ==>
                          resp == Redirect("/partner/" + id, UpdateDone)
                          && store.records == old(store.records)[user.id := candidate])
                    && (errs != map[] ==>
                          resp == Render("partner/edit", candidate, edited, errs)
                          && store.records == old(store.records)))
    ensures session.Some? && session.value in old(store.records) ==>
              session.value in store.records
              && store.records[session.value].password == old(store.records)[session.value].password
  {
    if session.None? || session.value !in store.records {
      return Redirect("/", LoginFirst);
    }
    var user := store.FindById(session.value);
    var found := FindPartner(user.partners, id);
    if found.None? {
      return StatusText(401, Unauthorized, Flash("error", Unauthorized));
    }
    var i := found.value;
    var edited := ApplyBody(user.partners[i], body);
    user.ReplacePartner(i, edited);
    var outcome := user.Save(store, hash);
    if outcome == Saved {
      resp := Redirect("/partner/" + edited.id, UpdateDone);
    } else {
      resp := Render("partner/edit", user.Snapshot(), edited, if outcome.Invalid? then outcome.errors else map[]);
    }
  }

  /* ---------- what the two writes promise ---------- */

  /**
   * Adding a partner whose email one of the agent's partners already has is
   * rejected on `partners`, and the message names that email: the new
   * partner is at the head of the list, where the schema's message looks.
   */
  lemma PostDuplicateRejected(user: AgentRecord, p: Partner, records: map<AgentId, AgentRecord>, j: nat)
    requires j < |user.partners| && user.partners[j].id != p.id && user.partners[j].email == p.email
    ensures var errs := AgentErrors(user.(partners := [p] + user.partners), records);
            && Field("partners") in errs && errs[Field("partners")] == DuplicatePartner + Show(p.email)
            && errs == OwnAgentErrors(user.(partners := [p] + user.partners), records)
  {
    var ps := [p] + user.partners;
    assert Clash(ps, 0, j + 1);
    OwnEntries(user.(partners := ps), records, Field("partners"));
  }

  /**
   * Adding a partner with a blank name, or with a blank email, to a valid
   * agent fails with exactly that partner's one error, under `partners.0`.
   */
  lemma PostBlankFieldErrors()
    ensures var user := AgentRecord("a", Some("a@example.com"), Some("hash"), None, None, None, []);
            var noName := NewPartner("1", Some("p@example.com"), Some("   "));
            var noEmail := NewPartner("1", Some("   "), Some("Some Guy   "));
            && AgentErrors(user.(partners := [noName]), map[]) == map[At("partners", 0, Field("name")) := NoName]
            && AgentErrors(user.(partners := [noEmail]), map[])
               == map[At("partners", 0, Field("email")) := PartnerSchema.NoEmail]
  {
    var user := AgentRecord("a", Some("a@example.com"), Some("hash"), None, None, None, []);
    var e := "p@example.com";
    assert !IsSpace(e[0]) && !IsSpace(e[|e| - 1]);
    TrimUntouched(e);
    TrimmedPresentIff(Some("   "));
    TrimmedPresentIff(Some("Some Guy   "));
    var noName := NewPartner("1", Some(e), Some("   "));
    var noEmail := NewPartner("1", Some("   "), Some("Some Guy   "));
    OneMissingFieldOneError(noName);
    OneMissingFieldOneError(noEmail);
    SinglePartnerErrors(user.(partners := [noName]), Field("name"), NoName);
    SinglePartnerErrors(user.(partners := [noEmail]), Field("email"), PartnerSchema.NoEmail);
  }

  /** A one-partner agent whose own rules hold reports exactly its partner's one error, under `partners.0`. */
  lemma SinglePartnerErrors(r: AgentRecord, path: Path, message: string)
    requires |r.partners| == 1 && Present(r.email) && Present(r.password)
    requires PartnerErrors(r.partners[0]) == map[path := message]
    ensures AgentErrors(r, map[]) == map[At("partners", 0, path) := message]
  {
    SinglePartnerOwnClean(r);
    SinglePartnerNested(r.partners, path, message);
    ErrorsWithoutClash(r, map[]);
    EmptyUnion(map[At("partners", 0, path) := message]);
  }

  /** One partner cannot clash, so with an email and a password the agent's own rules hold. */
  lemma SinglePartnerOwnClean(r: AgentRecord)
    requires |r.partners| == 1 && Present(r.email) && Present(r.password)
    ensures NoSharedEmail(r.partners) && OwnAgentErrors(r, map[]) == map[]
  {
    PartnersCheckBasics(r.partners);
    OwnAgentErrorsEmptyIff(r, map[]);
  }

  /** One partner with one error gives that error under `partners.0`. */
  lemma SinglePartnerNested(ps: seq<Partner>, path: Path, message: string)
    requires |ps| == 1 && PartnerErrors(ps[0]) == map[path := message]
    ensures Nested("partners", PartnerErrorList(ps)) == map[At("partners", 0, path) := message]
  {
    assert PartnerErrorList(ps) == [map[path := message]];
    NestedSingle("partners", path, message);
  }

  /**
   * The duplicate check hides the partners' own rules: adding a partner
   * with a blank name and the email of an existing partner reports the
   * duplicate alone, not the missing name.
   */
  lemma PostDuplicateHidesNameError()
    ensures var h := Partner("0", Some("h@x.com"), Some("H"), [], [], [], []);
            var user := AgentRecord("a", Some("a@example.com"), Some("hash"), None, None, None, [h]);
            var p := NewPartner("1", Some("h@x.com"), Some("   "));
            PartnerErrors(p) != map[]
            && AgentErrors(user.(partners := [p] + user.partners), map[])
               == map[Field("partners") := DuplicatePartner + "h@x.com"]
  {
    var h := Partner("0", Some("h@x.com"), Some("H"), [], [], [], []);
    var user := AgentRecord("a", Some("a@example.com"), Some("hash"), None, None, None, [h]);
    var e := "h@x.com";
    assert !IsSpace(e[0]) && !IsSpace(e[|e| - 1]);
    TrimUntouched(e);
    var p := NewPartner("1", Some(e), Some("   "));
    TrimmedPresentIff(Some("   "));
    PostDuplicateRejected(user, p, map[], 0);
    var cand := user.(partners := [p] + user.partners);
    var own := OwnAgentErrors(cand, map[]);
    assert own.Keys == {Field("partners")};
  }

  /**
   * Editing a partner's email to one another of the agent's partners has
   * is rejected on `partners`, so the update writes nothing. The message
   * names the email of the first partner in the list: the submitted email
   * when the edited partner is the first, whatever that first partner holds
   * otherwise.
   */
  lemma PutDuplicateRejected(user: AgentRecord, i: nat, body: map<string, string>, j: nat,
                             records: map<AgentId, AgentRecord>)
    requires i < |user.partners| && j < |user.partners| && user.partners[i].id != user.partners[j].id
    requires "email" in body && !AllSpace(body["email"]) && user.partners[j].email == Some(Trim(body["email"]))
    ensures var edited := EditedPartner(user.partners[i], body);
            var ps := user.partners[i := edited];
            var errs := AgentErrors(user.(partners := ps), records);
            && Field("partners") in errs
            && errs[Field("partners")] == DuplicatePartner + Show(ps[0].email)
            && (i == 0 ==> errs[Field("partners")] == DuplicatePartner + Trim(body["email"]))
  {
    var edited := EditedPartner(user.partners[i], body);
    EditedFieldRule(user.partners[i], body);
    var ps := user.partners[i := edited];
    assert Clash(ps, i, j);
    OwnEntries(user.(partners := ps), records, Field("partners"));
  }

  /**
   * The message as written can name a partner nobody duplicates: with
   * partners x, y, z, setting the third one's email to y is rejected with
   * a message naming x.
   */
  lemma PutMessageNamesHead()
    ensures var x := Partner("0", Some("x@example.com"), Some("X"), [], [], [], []);
            var y := Partner("1", Some("y@example.com"), Some("Y"), [], [], [], []);
            var z := Partner("2", Some("z@example.com"), Some("Z"), [], [], [], []);
            var user := AgentRecord("a", Some("a@example.com"), Some("hash"), None, None, None, [x, y, z]);
            var body := map["email" := "y@example.com"];
            var ps := user.partners[2 := EditedPartner(z, body)];
            var errs := AgentErrors(user.(partners := ps), map[]);
            Field("partners") in errs && errs[Field("partners")] == DuplicatePartner + "x@example.com"
  {
    var x := Partner("0", Some("x@example.com"), Some("X"), [], [], [], []);
    var y := Partner("1", Some("y@example.com"), Some("Y"), [], [], [], []);
    var z := Partner("2", Some("z@example.com"), Some("Z"), [], [], [], []);
    var user := AgentRecord("a", Some("a@example.com"), Some("hash"), None, None, None, [x, y, z]);
    var body := map["email" := "y@example.com"];
    var e := body["email"];
    assert !IsSpace(e[0]) && !IsSpace(e[|e| - 1]);
    TrimUntouched(e);
    PutDuplicateRejected(user, 2, body, 1, map[]);
  }
}
