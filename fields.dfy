/** The four-field form map shared by both contact-form components, and
    JavaScript string truthiness, which both use as their emptiness test. */
module FormFields {

  datatype Option<T> = None | Some(value: T)

  /** The `name` attribute of every input, and so the keys of `formData`. */
  datatype Field = Name | Email | Subject | Message

  const AllFields: set<Field> := {Name, Email, Subject, Message}

  /** `formData`: field id to the text entered so far. */
  type FormData = map<Field, string>

  /** The map holds an entry for every field. Its keys are typed as `Field`, so
      it can hold no other. */
  predicate WellKeyed(m: FormData)
  {
    forall f: Field :: f in m
  }

  /** A well-keyed map has exactly the four keys of the initial value. */
  lemma WellKeyedKeys(m: FormData)
    ensures WellKeyed(m) <==> m.Keys == AllFields
  {
    forall f: Field ensures f in AllFields {
      assert f.Name? || f.Email? || f.Subject? || f.Message?;
    }
  }

  /** JavaScript truthiness of a string: only the empty string is falsy.
      Nothing is trimmed, so a value made of spaces is truthy. */
  predicate Truthy(s: string)
  {
    |s| > 0
  }

  /** The initial value of `formData`, and what a successful submit resets it to. */
  function EmptyForm(): (m: FormData)
    ensures WellKeyed(m)
    ensures forall f :: f in m ==> !Truthy(m[f])
  {
    var m := map[Name := "", Email := "", Subject := "", Message := ""];
    assert WellKeyed(m) by {
      forall f: Field ensures f in m {
        assert f.Name? || f.Email? || f.Subject? || f.Message?;
      }
    }
    m
  }

  /** The functional update `{ ...prev, [name]: value }` of both change handlers. */
  function Assign(m: FormData, name: Field, value: string): (r: FormData)
    ensures r.Keys == m.Keys + {name}
    ensures r[name] == value
    ensures forall g :: g in m && g != name ==> r[g] == m[g]
    ensures WellKeyed(m) ==> WellKeyed(r)
  {
    m[name := value]
  }

  /** One change event: the input named `field` now holds `value`. */
  datatype Edit = Edit(field: Field, value: string)

  /** The map after a sequence of change events, applied in order. */
  function ApplyEdits(m: FormData, edits: seq<Edit>): (r: FormData)
    ensures m.Keys <= r.Keys
    ensures forall i :: 0 <= i < |edits| ==> edits[i].field in r
    ensures WellKeyed(m) ==> WellKeyed(r)
    decreases |edits|
  {
    if edits == [] then m
    else ApplyEdits(Assign(m, edits[0].field, edits[0].value), edits[1..])
  }

  /** The value of the last edit to `f` in `edits`, or `prior` when there is none:
      a reference definition that reads the edits from the back. */
  function LastValue(edits: seq<Edit>, f: Field, prior: string): string
    decreases |edits|
  {
    if edits == [] then prior
    else if edits[|edits| - 1].field == f then edits[|edits| - 1].value
    else LastValue(edits[..|edits| - 1], f, prior)
  }

  lemma {:induction false} ApplyEditsSnoc(m: FormData, edits: seq<Edit>, e: Edit)
    ensures ApplyEdits(m, edits + [e]) == Assign(ApplyEdits(m, edits), e.field, e.value)
    decreases |edits|
  {
    if edits == [] {
      assert edits + [e] == [e];
      assert [e][1..] == [];
    } else {
      assert (edits + [e])[0] == edits[0];
      assert (edits + [e])[1..] == edits[1..] + [e];
      ApplyEditsSnoc(Assign(m, edits[0].field, edits[0].value), edits[1..], e);
    }
  }

  /** After any sequence of edits, every field holds the value of its last edit,
      and a field never edited keeps its previous value. */
  lemma {:induction false} EditsKeepLastValue(m: FormData, edits: seq<Edit>, f: Field)
    requires f in m
    ensures f in ApplyEdits(m, edits)
    ensures ApplyEdits(m, edits)[f] == LastValue(edits, f, m[f])
    decreases |edits|
  {
    if edits != [] {
      var front, e := edits[..|edits| - 1], edits[|edits| - 1];
      assert edits == front + [e];
      ApplyEditsSnoc(m, front, e);
      EditsKeepLastValue(m, front, f);
    }
  }

  /** Starting from the empty form, a field that no edit names is still "". */
  lemma {:induction false} UneditedFieldStaysEmpty(edits: seq<Edit>, f: Field)
    requires forall i :: 0 <= i < |edits| ==> edits[i].field != f
    ensures ApplyEdits(EmptyForm(), edits)[f] == ""
    decreases |edits|
  {
    EditsKeepLastValue(EmptyForm(), edits, f);
    LastValueUnedited(edits, f, "");
  }

  lemma {:induction false} LastValueUnedited(edits: seq<Edit>, f: Field, prior: string)
    requires forall i :: 0 <= i < |edits| ==> edits[i].field != f
    ensures LastValue(edits, f, prior) == prior
    decreases |edits|
  {
    if edits != [] {
      LastValueUnedited(edits[..|edits| - 1], f, prior);
    }
  }
}
