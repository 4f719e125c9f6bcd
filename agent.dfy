/**
 * The Agent root document and the collection that stores agents.
 *
 * An agent owns an ordered list of partners. Saving validates the whole
 * document (its own fields, the pairwise partner-email check, and every
 * partner with its sub-documents), then runs the `pre('save')` hook that
 * re-hashes a modified password, then writes. A save that fails at any
 * step writes nothing.
 */
module Agent {
  import opened Wrappers
  import opened Text
  import opened Schema
  import opened Partner

  type AgentId = string

  /** An agent as stored. `password` holds the bcrypt hash once saved. */
  datatype AgentRecord = AgentRecord(id: AgentId, email: Option<string>, password: Option<string>,
                                     name: Option<string>, resetPasswordToken: Option<string>,
                                     resetPasswordExpires: Option<int>, partners: seq<Partner>)

  const NoEmail := "No email supplied"
  const NoPassword := "No password supplied"
  const EmailTaken := "That email is taken"
  const DuplicatePartner := "You already have a partner with email: "

  /* ---------- the `partners` validator ---------- */

  /** Entries `i` and `j` are different partners (by id) sharing an email. */
  predicate Clash(ps: seq<Partner>, i: nat, j: nat)
    requires i < |ps| && j < |ps|
  {
    ps[i].id != ps[j].id && ps[i].email == ps[j].email
  }

  /** The property the validator guards: no two partners with different ids share an email. */
  predicate NoSharedEmail(ps: seq<Partner>) {
    forall i, j :: 0 <= i < |ps| && 0 <= j < |ps| ==> !Clash(ps, i, j)
  }

  /** The inner loop: the first `k >= j` whose entry clashes with entry `i`. */
  function ScanInner(ps: seq<Partner>, i: nat, j: nat): (r: Option<nat>)
    requires i < |ps| && j <= |ps|
    decreases |ps| - j
    ensures r.Some? ==> j <= r.value < |ps| && Clash(ps, i, r.value)
                        && forall k :: j <= k < r.value ==> !Clash(ps, i, k)
    ensures r.None? ==> forall k :: j <= k < |ps| ==> !Clash(ps, i, k)
  {
    if j == |ps| then None
    else if Clash(ps, i, j) then Some(j)
    else ScanInner(ps, i, j + 1)
  }

  datatype Pair = Pair(outer: nat, inner: nat)

  /** The outer loop from entry `i` on: the first clashing pair in the validator's visiting order. */
  function ScanOuter(ps: seq<Partner>, i: nat): (r: Option<Pair>)
    requires i <= |ps|
    decreases |ps| - i
    ensures r.Some? ==> && i <= r.value.outer < |ps| && r.value.inner < |ps|
                        && Clash(ps, r.value.outer, r.value.inner)
                        && (forall a, b :: i <= a < r.value.outer && 0 <= b < |ps| ==> !Clash(ps, a, b))
                        && (forall b :: 0 <= b < r.value.inner ==> !Clash(ps, r.value.outer, b))
    ensures r.None? ==> forall a, b :: i <= a < |ps| && 0 <= b < |ps| ==> !Clash(ps, a, b)
  {
    if i == |ps| then None
    else match ScanInner(ps, i, 0)
      case Some(j) => Some(Pair(i, j))
      case None => ScanOuter(ps, i + 1)
  }

  /**
   * The corrected verdict: the same scan, with the message naming the email
   * of the first partner found to have a duplicate (the schema's message
   * names the partner at index 0 instead; see `PartnersErrorAsWritten`).
   */
  function PartnersError(ps: seq<Partner>): (m: Option<string>)
    ensures m.None? <==> NoSharedEmail(ps)
    ensures m.Some? ==> exists i, j :: 0 <= i < |ps| && 0 <= j < |ps| && Clash(ps, i, j)
                                      && m.value == DuplicatePartner + Show(ps[i].email)
  {
    match ScanOuter(ps, 0)
    case None => None
    case Some(pair) => Some(DuplicatePartner + Show(ps[pair.outer].email))
  }

  /**
   * The `partners` validator as the schema runs it: the scan fails exactly
   * when two different partners share an email, and the message then names
   * the head of the list, whichever partners clash.
   */
  function PartnersErrorAsWritten(ps: seq<Partner>): (m: Option<string>)
    ensures m.None? <==> NoSharedEmail(ps)
    ensures m.Some? ==> |ps| >= 2 && m.value == DuplicatePartner + Show(ps[0].email)
  {
    match ScanOuter(ps, 0)
    case None => None
    case Some(pair) =>
      assert pair.outer != pair.inner;
      Some(DuplicatePartner + Show(ps[0].email))
  }

  /** Empty and one-entry lists always pass; a list passes exactly when no two different partners share an email. */
  lemma PartnersCheckBasics(ps: seq<Partner>)
    ensures |ps| <= 1 ==> PartnersError(ps).None?
    ensures PartnersError(ps).None? <==>
              forall i, j :: 0 <= i < |ps| && 0 <= j < |ps| && ps[i].id != ps[j].id ==> ps[i].email != ps[j].email
  {
    if |ps| == 1 {
      assert !Clash(ps, 0, 0);
    }
    if NoSharedEmail(ps) {
      forall i, j | 0 <= i < |ps| && 0 <= j < |ps| && ps[i].id != ps[j].id
        ensures ps[i].email != ps[j].email
      {
        assert !Clash(ps, i, j);
      }
    }
  }

  /**
   * The source compares `_id` objects with `!==`, that is by reference, so it
   * tells entries apart by position; whenever the ids are distinct, as fresh
   * ObjectIds are, comparing by id value is the same check.
   */
  lemma IdCheckIsPositionCheck(ps: seq<Partner>)
    requires forall i, j :: 0 <= i < j < |ps| ==> ps[i].id != ps[j].id
    ensures NoSharedEmail(ps) <==>
              forall i, j :: 0 <= i < |ps| && 0 <= j < |ps| && i != j ==> ps[i].email != ps[j].email
  {
    if NoSharedEmail(ps) {
      forall i, j | 0 <= i < |ps| && 0 <= j < |ps| && i != j
        ensures ps[i].email != ps[j].email
      {
        assert ps[i].id != ps[j].id;
        assert !Clash(ps, i, j);
      }
    }
  }

  /**
   * When the partner at index 0 has a duplicate, as after a new partner is
   * put at the head of the list, the schema's message and the corrected one
   * coincide and both name that partner's email.
   */
  lemma HeadDuplicateMessagesAgree(ps: seq<Partner>, j: nat)
    requires j < |ps| && Clash(ps, 0, j)
    ensures PartnersError(ps) == PartnersErrorAsWritten(ps) == Some(DuplicatePartner + Show(ps[0].email))
  {
    var r := ScanInner(ps, 0, 0);
    assert r.Some?;
  }

  /**
   * The schema's message can name an email nobody shares: with partners
   * x, y, y (in that order) it reports x, while the duplicate is y.
   */
  lemma MessageAsWrittenMisnames()
    ensures var ps := [Partner("0", Some("x@example.com"), Some("X"), [], [], [], []),
                       Partner("1", Some("y@example.com"), Some("Y"), [], [], [], []),
                       Partner("2", Some("y@example.com"), Some("Z"), [], [], [], [])];
            && PartnersErrorAsWritten(ps) == Some(DuplicatePartner + "x@example.com")
            && (forall j :: 0 <= j < |ps| ==> !Clash(ps, 0, j))
            && PartnersError(ps) == Some(DuplicatePartner + "y@example.com")
  {
    var ps := [Partner("0", Some("x@example.com"), Some("X"), [], [], [], []),
               Partner("1", Some("y@example.com"), Some("Y"), [], [], [], []),
               Partner("2", Some("y@example.com"), Some("Z"), [], [], [], [])];
    assert !Clash(ps, 0, 1) && !Clash(ps, 0, 2);
    assert ScanInner(ps, 0, 0) == None;
    assert Clash(ps, 1, 2);
    assert ScanInner(ps, 1, 0) == Some(2);
  }

  /* ---------- the agent's rules ---------- */

  /** Some other stored agent holds this email: what the unique-validator plugin looks up. */
  predicate Taken(email: Option<string>, id: AgentId, records: map<AgentId, AgentRecord>) {
    exists k :: k in records && k != id && records[k].email == email
  }

  function PartnerErrorList(ps: seq<Partner>): (r: seq<Errors>)
    ensures |r| == |ps| && forall i :: 0 <= i < |ps| ==> r[i] == PartnerErrors(ps[i])
  {
    seq(|ps|, i requires 0 <= i < |ps| => PartnerErrors(ps[i]))
  }

  /** The `email` rule: required first, then not held by another stored agent. */
  function EmailError(r: AgentRecord, records: map<AgentId, AgentRecord>): Option<string> {
    if !Present(r.email) then Some(NoEmail) else if Taken(r.email, r.id, records) then Some(EmailTaken) else None
  }

  /** The agent's own paths: `email` (required, then unique), `password` (required) and `partners`. */
  function OwnAgentErrors(r: AgentRecord, records: map<AgentId, AgentRecord>): (e: Errors)
    ensures forall k :: k in e ==> k == Field("email") || k == Field("password") || k == Field("partners")
    ensures Field("email") in e <==> !Present(r.email) || Taken(r.email, r.id, records)
    ensures Field("email") in e ==> e[Field("email")] == if Present(r.email) then EmailTaken else NoEmail
    ensures Field("password") in e <==> !Present(r.password)
    ensures Field("password") in e ==> e[Field("password")] == NoPassword
    ensures Field("partners") in e <==> !NoSharedEmail(r.partners)
    ensures Field("partners") in e ==> |r.partners| >= 2 && e[Field("partners")] == DuplicatePartner + Show(r.partners[0].email)
  {
    var password := if Present(r.password) then None else Some(NoPassword);
    ThreeFields(Field("email"), EmailError(r, records), Field("password"), password,
                Field("partners"), PartnersErrorAsWritten(r.partners));
    FieldError(Field("email"), EmailError(r, records))
    + FieldError(Field("password"), password)
    + FieldError(Field("partners"), PartnersErrorAsWritten(r.partners))
  }

  /**
   * Everything a save validates, keyed by path. The `partners` array runs
   * its own validator first and validates its entries only when that
   * passes, so the partners' errors (under `partners.i`) appear only when
   * no two partners share an email.
   */
  function AgentErrors(r: AgentRecord, records: map<AgentId, AgentRecord>): (e: Errors)
    ensures Field("email") in e <==> !Present(r.email) || Taken(r.email, r.id, records)
    ensures Field("password") in e <==> !Present(r.password)
    ensures Field("partners") in e <==> !NoSharedEmail(r.partners)
    ensures Field("partners") in e ==> e == OwnAgentErrors(r, records)
  {
    var own := OwnAgentErrors(r, records);
    if PartnersErrorAsWritten(r.partners).Some? then own
    else
      var nested := Nested("partners", PartnerErrorList(r.partners));
      assert Field("email") !in nested && Field("password") !in nested && Field("partners") !in nested;
      own + nested
  }

  /**
   * When no two partners share an email, the save reports each partner's
   * own errors under `partners.i`, with that partner's messages.
   */
  lemma PartnerEntries(r: AgentRecord, records: map<AgentId, AgentRecord>, i: nat, q: Path)
    requires NoSharedEmail(r.partners) && i < |r.partners|
    ensures At("partners", i, q) in AgentErrors(r, records) <==> q in PartnerErrors(r.partners[i])
    ensures q in PartnerErrors(r.partners[i]) ==>
              AgentErrors(r, records)[At("partners", i, q)] == PartnerErrors(r.partners[i])[q]
  {
    var own := OwnAgentErrors(r, records);
    var nested := Nested("partners", PartnerErrorList(r.partners));
    ErrorsWithoutClash(r, records);
    NestedEntry("partners", PartnerErrorList(r.partners), i, q);
    assert At("partners", i, q) !in own;
  }

  /** Without a shared email, the errors are the agent's own and every partner's. */
  lemma ErrorsWithoutClash(r: AgentRecord, records: map<AgentId, AgentRecord>)
    requires NoSharedEmail(r.partners)
    ensures AgentErrors(r, records) == OwnAgentErrors(r, records) + Nested("partners", PartnerErrorList(r.partners))
  {
  }

  /** The agent's own entries of the errors are exactly those of its own rules. */
  lemma OwnEntries(r: AgentRecord, records: map<AgentId, AgentRecord>, path: Path)
    requires path.Field?
    ensures path in AgentErrors(r, records) <==> path in OwnAgentErrors(r, records)
    ensures path in AgentErrors(r, records) ==> AgentErrors(r, records)[path] == OwnAgentErrors(r, records)[path]
  {
    assert path !in Nested("partners", PartnerErrorList(r.partners));
  }

  /** The agent's own rules hold exactly when they report nothing. */
  lemma OwnAgentErrorsEmptyIff(r: AgentRecord, records: map<AgentId, AgentRecord>)
    ensures OwnAgentErrors(r, records) == map[] <==>
              Present(r.email) && !Taken(r.email, r.id, records) && Present(r.password) && NoSharedEmail(r.partners)
  {
    var own := OwnAgentErrors(r, records);
    if Present(r.email) && !Taken(r.email, r.id, records) && Present(r.password) && NoSharedEmail(r.partners) {
      assert forall k :: k !in own;
    }
  }

  /** Both parts of a union of errors are empty exactly when the union is. */
  lemma UnionEmptyIff(a: Errors, b: Errors)
    ensures a + b == map[] <==> a == map[] && b == map[]
  {
    if a + b == map[] {
      assert forall k :: k in a ==> k in a + b;
      assert forall k :: k in b ==> k in a + b;
    }
  }

  /** A save passes validation exactly when the agent's own rules hold and every partner is clean. */
  lemma AgentErrorsEmptyIff(r: AgentRecord, records: map<AgentId, AgentRecord>)
    ensures AgentErrors(r, records) == map[] <==>
              && Present(r.email) && !Taken(r.email, r.id, records) && Present(r.password)
              && NoSharedEmail(r.partners)
              && forall i :: 0 <= i < |r.partners| ==> PartnerErrors(r.partners[i]) == map[]
  {
    PartnersCleanIff(r.partners);
    UnionEmptyIff(OwnAgentErrors(r, records), Nested("partners", PartnerErrorList(r.partners)));
    OwnAgentErrorsEmptyIff(r, records);
  }

  /**
   * A valid agent whose email another stored agent already holds is
   * rejected with exactly one error, "That email is taken" on `email`.
   */
  lemma TakenEmailOnlyError(r: AgentRecord, records: map<AgentId, AgentRecord>)
    requires Present(r.email) && Present(r.password) && NoSharedEmail(r.partners)
    requires forall i :: 0 <= i < |r.partners| ==> PartnerErrors(r.partners[i]) == map[]
    requires Taken(r.email, r.id, records)
    ensures AgentErrors(r, records) == map[Field("email") := EmailTaken]
  {
    var own := OwnAgentErrors(r, records);
    PartnersCleanIff(r.partners);
    AddNothing(own, Nested("partners", PartnerErrorList(r.partners)));
    assert Field("password") !in own && Field("partners") !in own;
    OnlyError(own, Field("email"));
  }

  /** The `partners` list adds no error exactly when each partner is clean. */
  lemma PartnersCleanIff(ps: seq<Partner>)
    ensures Nested("partners", PartnerErrorList(ps)) == map[] <==>
              forall i :: 0 <= i < |ps| ==> PartnerErrors(ps[i]) == map[]
  {
    NestedEmptyIff("partners", PartnerErrorList(ps));
  }

  /** An agent with no partners reports only what its own rules report. */
  lemma NoPartnersOwnErrorsOnly(r: AgentRecord, records: map<AgentId, AgentRecord>)
    requires r.partners == []
    ensures AgentErrors(r, records) == OwnAgentErrors(r, records)
    ensures PartnersErrorAsWritten(r.partners).None?
  {
    AddNothing(OwnAgentErrors(r, records), Nested("partners", PartnerErrorList(r.partners)));
  }

  /** On what the caller supplied to `new Agent({...})`: a missing or blank email with a usable password gives exactly the one `email` error. */
  lemma NewAgentBlankEmail(id: AgentId, email: Option<string>, password: Option<string>, name: Option<string>,
                           records: map<AgentId, AgentRecord>)
    requires email.None? || AllSpace(email.value)
    requires password.Some? && !AllSpace(password.value)
    ensures var r := AgentRecord(id, Trimmed(email), Trimmed(password), Trimmed(name), None, None, []);
            AgentErrors(r, records) == map[Field("email") := NoEmail]
  {
    var r := AgentRecord(id, Trimmed(email), Trimmed(password), Trimmed(name), None, None, []);
    TrimmedPresentIff(email);
    TrimmedPresentIff(password);
    NoPartnersOwnErrorsOnly(r, records);
    OnlyError(OwnAgentErrors(r, records), Field("email"));
  }

  /** On what the caller supplied: a missing or blank password with a usable, free email gives exactly the one `password` error. */
  lemma NewAgentBlankPassword(id: AgentId, email: Option<string>, password: Option<string>, name: Option<string>,
                              records: map<AgentId, AgentRecord>)
    requires email.Some? && !AllSpace(email.value) && !Taken(Trimmed(email), id, records)
    requires password.None? || AllSpace(password.value)
    ensures var r := AgentRecord(id, Trimmed(email), Trimmed(password), Trimmed(name), None, None, []);
            AgentErrors(r, records) == map[Field("password") := NoPassword]
  {
    var r := AgentRecord(id, Trimmed(email), Trimmed(password), Trimmed(name), None, None, []);
    TrimmedPresentIff(email);
    TrimmedPresentIff(password);
    NoPartnersOwnErrorsOnly(r, records);
    OnlyError(OwnAgentErrors(r, records), Field("password"));
  }

  /**
   * Only the emails of the other agents matter: changing another agent's
   * partners never changes this agent's errors, so partner-email uniqueness
   * is per agent.
   */
  lemma OtherAgentsPartnersIrrelevant(r: AgentRecord, records: map<AgentId, AgentRecord>, k: AgentId, ps: seq<Partner>)
    requires k in records
    ensures AgentErrors(r, records[k := records[k].(partners := ps)]) == AgentErrors(r, records)
  {
    TakenIgnoresPartners(r.email, r.id, records, k, ps);
    assert EmailError(r, records[k := records[k].(partners := ps)]) == EmailError(r, records);
  }

  /** Whether an email is taken depends on the stored emails only, not on any agent's partners. */
  lemma TakenIgnoresPartners(email: Option<string>, id: AgentId, records: map<AgentId, AgentRecord>, k: AgentId, ps: seq<Partner>)
    requires k in records
    ensures Taken(email, id, records[k := records[k].(partners := ps)]) == Taken(email, id, records)
  {
    var records' := records[k := records[k].(partners := ps)];
    if Taken(email, id, records) {
      var w :| w in records && w != id && records[w].email == email;
      assert records'[w].email == email;
    }
    if Taken(email, id, records') {
      var w :| w in records' && w != id && records'[w].email == email;
      assert records[w].email == email;
    }
  }

  /* ---------- the password ---------- */

  /** What bcrypt's `hash` gives back: a digest, or an error. */
  datatype HashOutcome = Digest(value: string) | HashFailed

  /** What bcrypt's `compare` gives back: whether the plaintext matches, or an error. */
  datatype CompareOutcome = Compared(isMatch: bool) | CompareFailed(message: string)

  /** The callback result of `validPassword`: the agent, or `false`; its error argument is always `null`. */
  datatype LoginVerdict = Accepted(agent: AgentRecord) | Rejected

  /**
   * The `pre('save')` hook: when the password was modified, it is replaced
   * by the hash of the plaintext (through the `trim` setter); otherwise the
   * record is left exactly as it is. `None` is a hashing error, which makes
   * the save fail.
   */
  function Rehashed(r: AgentRecord, modified: bool, hash: string -> HashOutcome): (o: Option<AgentRecord>)
    ensures !modified ==> o == Some(r)
    ensures o.Some? ==> o.value.(password := r.password) == r
    ensures modified && r.password.Some? ==>
              match hash(r.password.value)
              case HashFailed => o.None?
              case Digest(d) => o == Some(r.(password := Some(Trim(d))))
  {
    if !modified || r.password.None? then Some(r)
    else match hash(r.password.value)
      case HashFailed => None
      case Digest(d) => Some(r.(password := Trimmed(Some(d))))
  }

  /**
   * `Agent.validPassword`: calls back with the agent on a match, and with
   * `false` both on a mismatch and when the comparison itself fails (that
   * error is only logged).
   */
  function ValidPassword(compare: (string, string) -> CompareOutcome, password: string, hash: string,
                         agent: AgentRecord): (v: LoginVerdict)
    ensures v == Accepted(agent) <==> compare(password, hash) == Compared(true)
    ensures v != Accepted(agent) ==> v == Rejected
  {
    match compare(password, hash)
    case Compared(isMatch) => if isMatch then Accepted(agent) else Rejected
    case CompareFailed(_) => Rejected
  }

  /**
   * With a bcrypt-like pair (comparing a plaintext with its own digest
   * matches), the password a save stored accepts the plaintext it was
   * hashed from.
   */
  lemma StoredPasswordAccepts(r: AgentRecord, hash: string -> HashOutcome,
                              compare: (string, string) -> CompareOutcome)
    requires forall p, d :: hash(p) == Digest(d) ==> compare(p, Trim(d)) == Compared(true)
    requires r.password.Some? && Rehashed(r, true, hash).Some?
    ensures var stored := Rehashed(r, true, hash).value;
            stored.password.Some?
            && ValidPassword(compare, r.password.value, stored.password.value, stored) == Accepted(stored)
  {
    var stored := Rehashed(r, true, hash).value;
    match hash(r.password.value)
    case HashFailed =>
    case Digest(d) =>
      assert stored.password == Some(Trim(d));
  }

  /* ---------- the agent collection and the in-memory document ---------- */

  /** The outcome of `agent.save()`. */
  datatype SaveOutcome = Saved | Invalid(errors: Errors) | HookFailed | WriteFailed

  /** The stored agents, keyed by id. */
  class AgentStore {
    var records: map<AgentId, AgentRecord>

    /** Every record sits under its own id, and holds a present email no other record holds. */
    ghost predicate Valid()
      reads this
    {
      forall k :: k in records ==>
        records[k].id == k && Present(records[k].email) && !Taken(records[k].email, k, records)
    }

    constructor ()
      ensures records == map[] && Valid()
    {
      records := map[];
    }

    /** `Agent.findById(id)`: a fresh in-memory document, or nothing. */
    method FindById(id: AgentId) returns (doc: AgentDocument?)
      ensures doc == null <==> id !in records
      ensures doc != null ==> fresh(doc) && doc.Snapshot() == records[id]
                              && !doc.isNew && !doc.passwordModified
    {
      if id in records {
        doc := new AgentDocument.Load(records[id]);
      } else {
        doc := null;
      }
    }
  }

  /** An agent document in memory: its fields, whether it was ever stored, and the password's modified flag. */
  class AgentDocument {
    var id: AgentId
    var email: Option<string>
    var password: Option<string>
    var name: Option<string>
    var resetPasswordToken: Option<string>
    var resetPasswordExpires: Option<int>
    var partners: seq<Partner>
    var isNew: bool
    var passwordModified: bool

    function Snapshot(): AgentRecord
      reads this
    {
      AgentRecord(id, email, password, name, resetPasswordToken, resetPasswordExpires, partners)
    }

    /** `new Agent({email, password, name})`: strings trimmed, no partners, new, password modified if given. */
    constructor Create(id: AgentId, email: Option<string>, password: Option<string>, name: Option<string>)
      ensures Snapshot() == AgentRecord(id, Trimmed(email), Trimmed(password), Trimmed(name), None, None, [])
      ensures isNew && passwordModified == password.Some?
    {
      this.id := id;
      this.email := Trimmed(email);
      this.password := Trimmed(password);
      this.name := Trimmed(name);
      this.resetPasswordToken := None;
      this.resetPasswordExpires := None;
      this.partners := [];
      this.isNew := true;
      this.passwordModified := password.Some?;
    }

    /** A document read back from the collection: not new, nothing modified. */
    constructor Load(r: AgentRecord)
      ensures Snapshot() == r && !isNew && !passwordModified
    {
      id, email, password, name := r.id, r.email, r.password, r.name;
      resetPasswordToken, resetPasswordExpires := r.resetPasswordToken, r.resetPasswordExpires;
      partners := r.partners;
      isNew, passwordModified := false, false;
    }

    /** `agent.email = raw`: trimmed; the password stays unmodified. */
    method SetEmail(raw: Option<string>)
      modifies this
      ensures Snapshot() == old(Snapshot()).(email := Trimmed(raw))
      ensures isNew == old(isNew) && passwordModified == old(passwordModified)
    {
      email := Trimmed(raw);
    }

    /**
     * `agent.password = raw`: stored trimmed. The path is marked modified on
     * a new document, or when the trimmed value differs from the current
     * one; assigning a stored document its own value back marks nothing.
     */
    method SetPassword(raw: Option<string>)
      modifies this
      ensures Snapshot() == old(Snapshot()).(password := Trimmed(raw))
      ensures isNew == old(isNew)
      ensures passwordModified == (old(passwordModified) || old(isNew) || Trimmed(raw) != old(password))
    {
      var value := Trimmed(raw);
      passwordModified := passwordModified || isNew || value != password;
      password := value;
    }

    /** `agent.partners.unshift(partner)`: the new partner goes to index 0, the others move down one. */
    method UnshiftPartner(p: Partner)
      modifies this
      ensures Snapshot() == old(Snapshot()).(partners := [p] + old(partners))
      ensures isNew == old(isNew) && passwordModified == old(passwordModified)
    {
      partners := [p] + partners;
    }

    /** Replace the partner at index `i` in place (the subdocument edited through `partner[param] = ...`). */
    method ReplacePartner(i: nat, p: Partner)
      requires i < |partners|
      modifies this
      ensures Snapshot() == old(Snapshot()).(partners := old(partners)[i := p])
      ensures isNew == old(isNew) && passwordModified == old(passwordModified)
    {
      partners := partners[i := p];
    }

    /**
     * `agent.save()`: validate against the stored agents, run the re-hash
     * hook, then insert (a new document) or update (a stored one). Any
     * failure leaves the collection as it was.
     */
    method Save(store: AgentStore, hash: string -> HashOutcome) returns (outcome: SaveOutcome)
      requires store.Valid()
      modifies this, store
      ensures store.Valid()
      ensures var errs := AgentErrors(old(Snapshot()), old(store.records));
              errs != map[] ==>
                && outcome == Invalid(errs) && store.records == old(store.records)
                && Snapshot() == old(Snapshot()) && isNew == old(isNew)
                && passwordModified == old(passwordModified)
      ensures var errs := AgentErrors(old(Snapshot()), old(store.records));
              var hooked := Rehashed(old(Snapshot()), old(passwordModified), hash);
              errs == map[] && hooked.None? ==>
                && outcome == HookFailed && store.records == old(store.records)
                && Snapshot() == old(Snapshot()) && isNew == old(isNew)
                && passwordModified == old(passwordModified)
      ensures var errs := AgentErrors(old(Snapshot()), old(store.records));
              var hooked := Rehashed(old(Snapshot()), old(passwordModified), hash);
              errs == map[] && hooked.Some? && old(isNew) == (old(id) in old(store.records)) ==>
                && outcome == WriteFailed && store.records == old(store.records)
                && Snapshot() == hooked.value && isNew == old(isNew)
                && passwordModified == old(passwordModified)
      ensures var errs := AgentErrors(old(Snapshot()), old(store.records));
              var hooked := Rehashed(old(Snapshot()), old(passwordModified), hash);
              errs == map[] && hooked.Some? && old(isNew) != (old(id) in old(store.records)) ==>
                && outcome == Saved && store.records == old(store.records)[old(id) := hooked.value]
                && Snapshot() == hooked.value && !isNew && !passwordModified
    {
      var errs := AgentErrors(Snapshot(), store.records);
      if errs != map[] {
        return Invalid(errs);
      }
      var hooked := Rehashed(Snapshot(), passwordModified, hash);
      if hooked.None? {
        return HookFailed;
      }
      password := hooked.value.password;
      assert Snapshot() == hooked.value;
      if isNew == (id in store.records) {
        return WriteFailed;
      }
      CleanHasFreeEmail(old(Snapshot()), store.records);
      StorePreserved(store.records, hooked.value);
      store.records := store.records[id := hooked.value];
      isNew, passwordModified := false, false;
      outcome := Saved;
    }
  }

  /**
   * Changing only an agent's email and saving writes the new email and
   * leaves the stored password hash exactly as it was: the hook re-hashes
   * only a modified password.
   */
  method ChangeEmail(store: AgentStore, id: AgentId, email: Option<string>, hash: string -> HashOutcome)
    returns (outcome: SaveOutcome)
    requires store.Valid() && id in store.records
    modifies store
    ensures store.Valid()
    ensures outcome == Saved ==>
              store.records == old(store.records)[id := old(store.records)[id].(email := Trimmed(email))]
              && store.records[id].password == old(store.records)[id].password
    ensures outcome != Saved ==> store.records == old(store.records)
  {
    var agent := store.FindById(id);
    agent.SetEmail(email);
    outcome := agent.Save(store, hash);
  }

  /** A record that passes validation has a present email that no other stored agent holds. */
  lemma CleanHasFreeEmail(r: AgentRecord, records: map<AgentId, AgentRecord>)
    requires AgentErrors(r, records) == map[]
    ensures Present(r.email) && !Taken(r.email, r.id, records)
  {
    AgentErrorsEmptyIff(r, records);
  }

  /** Writing a record whose email is present and free keeps every stored email unique. */
  lemma StorePreserved(records: map<AgentId, AgentRecord>, r: AgentRecord)
    requires forall k :: k in records ==>
               records[k].id == k && Present(records[k].email) && !Taken(records[k].email, k, records)
    requires Present(r.email) && !Taken(r.email, r.id, records)
    ensures var records' := records[r.id := r];
            forall k :: k in records' ==>
              records'[k].id == k && Present(records'[k].email) && !Taken(records'[k].email, k, records')
  {
  }
}
