/**
 * The vocabulary the schemas share: field paths and field-keyed error maps,
 * the `trim` setter, the `required` rule for strings, the four-valued contact
 * mode enum, and the untyped `{ text }` note sub-schema.
 */
module Schema {
  import opened Wrappers
  import opened Text

  /** A validation error key: `email`, or a path into an embedded list such as `partners.0.name`. */
  datatype Path = Field(name: string) | At(list: string, index: nat, inner: Path)

  /** Validation errors, at most one message per path (the `errors` object of a ValidationError). */
  type Errors = map<Path, string>

  /** The `trim: true` setter: a string is stored trimmed, an absent value stays absent. */
  function Trimmed(raw: Option<string>): (v: Option<string>)
    ensures v.None? <==> raw.None?
    ensures v.Some? ==> v.value == Trim(raw.value)
  {
    match raw
    case None => None
    case Some(s) => Some(Trim(s))
  }

  /** The `required` check on a string path: it fails on an absent value and on the empty string. */
  predicate Present(v: Option<string>) {
    v.Some? && v.value != ""
  }

  /** After the `trim` setter, a value is present exactly when it was given and is not all whitespace. */
  lemma TrimmedPresentIff(raw: Option<string>)
    ensures Present(Trimmed(raw)) <==> raw.Some? && !AllSpace(raw.value)
  {
    if raw.Some? { TrimEmptyIff(raw.value); }
  }

  /** A string in a JavaScript template literal: `undefined` when absent. */
  function Show(v: Option<string>): string {
    match v
    case None => "undefined"
    case Some(s) => s
  }

  /** The error map holding one message at `path`, or nothing. */
  function FieldError(path: Path, message: Option<string>): (e: Errors)
    ensures e == map[] <==> message.None?
    ensures forall p :: p in e ==> p == path && e[p] == message.value
    ensures message.Some? ==> path in e
  {
    match message
    case None => map[]
    case Some(m) => assert path in map[path := m]; map[path := m]
  }

  /** The errors of one list entry, re-keyed under `list.index`. */
  function Prefixed(list: string, index: nat, e: Errors): (r: Errors)
    ensures forall q :: q in e ==> At(list, index, q) in r && r[At(list, index, q)] == e[q]
    ensures forall p :: p in r ==> p.At? && p.list == list && p.index == index && p.inner in e
  {
    map q | q in e :: At(list, index, q) := e[q]
  }

  /**
   * The errors of every entry of an embedded list, each re-keyed under
   * `list.i`: what validating a parent document reports for its sub-documents.
   */
  function Nested(list: string, each: seq<Errors>): (r: Errors)
    ensures forall i, q :: 0 <= i < |each| && q in each[i] ==> At(list, i, q) in r && r[At(list, i, q)] == each[i][q]
    ensures forall p :: p in r ==> p.At? && p.list == list && p.index < |each| && p.inner in each[p.index]
  {
    if each == [] then map[]
    else Nested(list, each[..|each| - 1]) + Prefixed(list, |each| - 1, each[|each| - 1])
  }

  /** A list reports nothing exactly when none of its entries does. */
  lemma NestedEmptyIff(list: string, each: seq<Errors>)
    ensures Nested(list, each) == map[] <==> forall i :: 0 <= i < |each| ==> each[i] == map[]
  {
    if exists i :: 0 <= i < |each| && each[i] != map[] {
      var i :| 0 <= i < |each| && each[i] != map[];
      var q :| q in each[i];
      assert At(list, i, q) in Nested(list, each);
    }
  }

  /** Appending an entry that reports nothing leaves a list's errors as they were. */
  lemma NestedAppendClean(list: string, each: seq<Errors>, last: Errors)
    requires last == map[]
    ensures Nested(list, each + [last]) == Nested(list, each)
  {
    assert (each + [last])[..|each|] == each;
    assert Prefixed(list, |each|, last) == map[];
  }

  /** One entry's errors, read back from the list's errors. */
  lemma NestedEntry(list: string, each: seq<Errors>, i: nat, q: Path)
    requires i < |each|
    ensures At(list, i, q) in Nested(list, each) <==> q in each[i]
    ensures q in each[i] ==> Nested(list, each)[At(list, i, q)] == each[i][q]
  {
  }

  /** Adding errors to no errors gives those errors. */
  lemma EmptyUnion(e: Errors)
    ensures map[] + e == e
  {
  }

  /** A one-entry list whose entry has a single error reports that error under `list.0`. */
  lemma NestedSingle(list: string, path: Path, message: string)
    ensures Nested(list, [map[path := message]]) == map[At(list, 0, path) := message]
  {
    var single := Prefixed(list, 0, map[path := message]);
    assert single == map[At(list, 0, path) := message];
    assert Nested(list, [map[path := message]]) == Nested(list, []) + single;
  }

  /** A one-field error map is empty without a message, and otherwise that one message at that path. */
  lemma FieldErrorIs(path: Path, message: Option<string>)
    ensures message.None? ==> FieldError(path, message) == map[]
    ensures message.Some? ==> FieldError(path, message) == map[path := message.value]
  {
  }

  /** Three one-field error maps at distinct paths: each path holds its own message, and there is no other key. */
  lemma ThreeFields(p1: Path, m1: Option<string>, p2: Path, m2: Option<string>, p3: Path, m3: Option<string>)
    requires p1 != p2 && p1 != p3 && p2 != p3
    ensures var e := FieldError(p1, m1) + FieldError(p2, m2) + FieldError(p3, m3);
            && (forall k :: k in e ==> k == p1 || k == p2 || k == p3)
            && (p1 in e <==> m1.Some?) && (m1.Some? ==> e[p1] == m1.value)
            && (p2 in e <==> m2.Some?) && (m2.Some? ==> e[p2] == m2.value)
            && (p3 in e <==> m3.Some?) && (m3.Some? ==> e[p3] == m3.value)
  {
    var e1, e2, e3 := FieldError(p1, m1), FieldError(p2, m2), FieldError(p3, m3);
    assert p1 !in e2 && p1 !in e3 && p2 !in e1 && p2 !in e3 && p3 !in e1 && p3 !in e2;
  }

  /** An error map whose only key is `path` is the one-entry map. */
  lemma OnlyError(e: Errors, path: Path)
    requires path in e
    requires forall k :: k in e ==> k == path
    ensures e == map[path := e[path]]
  {
  }

  /** Adding no errors changes nothing. */
  lemma AddNothing(e: Errors, none: Errors)
    requires none == map[]
    ensures e + none == e
  {
  }

  /* ---------- the contact-mode enum shared by ThankYou, FollowUp and Appointment ---------- */

  const Modes: seq<string> := ["Email", "Snail Mail", "In Person", "Phone"]

  /**
   * A trimmed, required enum path: `required` is checked first (absent or
   * empty), then membership; the unknown-value message quotes the value
   * between single quotes.
   */
  function ModeError(mode: Option<string>, unknownPrefix: string, missing: string): (m: Option<string>)
    ensures m == None <==> Present(mode) && mode.value in Modes
    ensures !Present(mode) ==> m == Some(missing)
    ensures Present(mode) && mode.value !in Modes ==> m == Some(unknownPrefix + mode.value + "'")
  {
    if !Present(mode) then Some(missing)
    else if mode.value !in Modes then Some(unknownPrefix + mode.value + "'")
    else None
  }

  /* ---------- the `{ text: String }` note sub-schema ---------- */

  /** A note or a prayer: free text with no rule on it (its timestamps are not modelled). */
  datatype Note = Note(id: string, text: Option<string>)
}
