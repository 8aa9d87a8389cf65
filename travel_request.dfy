/** The request form of src/pages/TravelRequest.tsx. Its state is a plain
    JavaScript object that `updateFormData` rewrites by a dotted path, so
    the model keeps it as a dynamic object: a map from property names to
    values, sections being nested objects. */
module TravelRequestPage {
  import opened Strings

  /** The values the form's fields take: text, check-box state, a date
      picked on the calendar (a day number), `undefined`, or a section. */
  datatype JsValue =
    | Undefined
    | Str(s: string)
    | Bool(b: bool)
    | DateValue(day: int)
    | Obj(fields: map<string, JsValue>)

  type JsObject = map<string, JsValue>

  /** JavaScript truthiness of these values. */
  predicate Truthy(v: JsValue) {
    match v
    case Undefined => false
    case Str(s) => s != ""
    case Bool(b) => b
    case DateValue(_) => true
    case Obj(_) => true
  }

  /** `obj[key]`; a missing property reads as `undefined`. */
  function Property(obj: JsObject, key: string): JsValue {
    if key in obj then obj[key] else Undefined
  }

  /** `obj[key1][key2]`, reading `undefined` where there is no section. */
  function NestedProperty(obj: JsObject, key1: string, key2: string): JsValue {
    var section := Property(obj, key1);
    if section.Obj? then Property(section.fields, key2) else Undefined
  }

  /** The own properties `{...v}` copies from a section value. */
  function SpreadOf(v: JsValue): JsObject {
    if v.Obj? then v.fields else map[]
  }

  /** The state the form starts in. */
  const InitialFormData: JsObject := map[
    "requesterName" := Str(""),
    "requesterEmail" := Str(""),
    "purpose" := Str(""),
    "destination" := Obj(map["city" := Str(""), "address" := Str("")]),
    "dates" := Obj(map["start" := Undefined, "end" := Undefined]),
    "schedule" := Obj(map[
      "arrivalTime" := Str(""), "arrivalPreference" := Str("morning"),
      "departureTime" := Str(""), "departurePreference" := Str("evening")]),
    "accommodation" := Obj(map["hotelPreference" := Str(""), "location" := Str("")]),
    "equipment" := Obj(map["laptop" := Bool(false), "simCard" := Bool(false), "other" := Str("")])
  ]

  /** In the initial state the texts are empty, the dates undefined, both
      check boxes off, and the preferences `morning` and `evening`. */
  lemma InitialFormShape()
    ensures forall k :: k in {"requesterName", "requesterEmail", "purpose"} ==> Property(InitialFormData, k) == Str("")
    ensures NestedProperty(InitialFormData, "destination", "city") == Str("")
    ensures NestedProperty(InitialFormData, "destination", "address") == Str("")
    ensures NestedProperty(InitialFormData, "schedule", "arrivalTime") == Str("")
    ensures NestedProperty(InitialFormData, "schedule", "departureTime") == Str("")
    ensures NestedProperty(InitialFormData, "accommodation", "hotelPreference") == Str("")
    ensures NestedProperty(InitialFormData, "accommodation", "location") == Str("")
    ensures NestedProperty(InitialFormData, "equipment", "other") == Str("")
    ensures NestedProperty(InitialFormData, "dates", "start") == Undefined
    ensures NestedProperty(InitialFormData, "dates", "end") == Undefined
    ensures NestedProperty(InitialFormData, "equipment", "laptop") == Bool(false)
    ensures NestedProperty(InitialFormData, "equipment", "simCard") == Bool(false)
    ensures NestedProperty(InitialFormData, "schedule", "arrivalPreference") == Str("morning")
    ensures NestedProperty(InitialFormData, "schedule", "departurePreference") == Str("evening")
  {
  }

  /** The updater `updateFormData(field, value)` hands to `setFormData`:
      `field` splits on '.'; one key replaces that top-level property, two
      keys replace one property of a copy of that section, and three or more
      keys leave the state as it was. */
  function NextFormData(prev: JsObject, field: string, value: JsValue): (next: JsObject)
    ensures |Split(field, '.')| == 1 ==>
      field in next && next[field] == value && next - {field} == prev - {field}
    ensures |Split(field, '.')| == 2 ==>
      var key1, key2 := Split(field, '.')[0], Split(field, '.')[1];
      && next - {key1} == prev - {key1}
      && NestedProperty(next, key1, key2) == value
      && key1 in next && next[key1].Obj?
      && next[key1].fields - {key2} == SpreadOf(Property(prev, key1)) - {key2}
    ensures |Split(field, '.')| >= 3 ==> next == prev
  {
    var keys := Split(field, '.');
    if |keys| == 1 then
      JoinSplit(field, '.');
      prev[field := value]
    else if |keys| == 2 then
      var key1, key2 := keys[0], keys[1];
      prev[key1 := Obj(SpreadOf(Property(prev, key1))[key2 := value])]
    else prev
  }

  /** A one-key path writes that property; reading it back gives the value
      written, and every other property reads as before. */
  lemma {:induction false} UpdateTopLevel(prev: JsObject, field: string, value: JsValue)
    requires '.' !in field
    ensures Property(NextFormData(prev, field, value), field) == value
    ensures forall k :: k != field ==> Property(NextFormData(prev, field, value), k) == Property(prev, k)
  {
    SplitJoin([field], '.');
    var next := NextFormData(prev, field, value);
    forall k | k != field ensures Property(next, k) == Property(prev, k) {
      assert k in next <==> k in next - {field};
      assert k in prev <==> k in prev - {field};
      if k in prev {
        assert (next - {field})[k] == next[k];
      }
    }
  }

  /** A two-key path `section.key` writes one property of one section:
      reading it back gives the value written, the section's other
      properties read as before, and so does every other section. */
  lemma {:induction false} UpdateNested(prev: JsObject, section: string, key: string, value: JsValue)
    requires '.' !in section && '.' !in key
    ensures NestedProperty(NextFormData(prev, section + "." + key, value), section, key) == value
    ensures forall k :: k != key ==>
      NestedProperty(NextFormData(prev, section + "." + key, value), section, k) == NestedProperty(prev, section, k)
    ensures forall k :: k != section ==>
      Property(NextFormData(prev, section + "." + key, value), k) == Property(prev, k)
  {
    SplitJoin([section, key], '.');
    assert Join([section, key], '.') == section + "." + key by {
      assert [section, key][1..] == [key];
    }
    var next := NextFormData(prev, section + "." + key, value);
    var old_fields := SpreadOf(Property(prev, section));
    var new_fields := next[section].fields;
    forall k | k != key ensures NestedProperty(next, section, k) == NestedProperty(prev, section, k) {
      assert k in new_fields <==> k in new_fields - {key};
      assert k in old_fields <==> k in old_fields - {key};
      if k in old_fields {
        assert (new_fields - {key})[k] == new_fields[k];
      }
    }
    forall k | k != section ensures Property(next, k) == Property(prev, k) {
      assert k in next <==> k in next - {section};
      assert k in prev <==> k in prev - {section};
      if k in prev {
        assert (next - {section})[k] == next[k];
      }
    }
  }

  /** A path of three or more keys changes nothing. */
  lemma DeepPathIgnored(prev: JsObject, a: string, b: string, rest: string, value: JsValue)
    requires '.' !in a && '.' !in b
    ensures NextFormData(prev, a + "." + b + "." + rest, value) == prev
  {
    var field := a + "." + b + "." + rest;
    assert field == a + (['.'] + (b + (['.'] + rest)));
    SplitPrefix(a, ['.'] + (b + (['.'] + rest)), '.');
    assert (['.'] + (b + (['.'] + rest)))[1..] == b + (['.'] + rest);
    SplitPrefix(b, ['.'] + rest, '.');
    assert (['.'] + rest)[1..] == rest;
  }

  /** What submitting does: an error notice and no navigation, or a success
      notice and navigation to the list. */
  datatype SubmitOutcome = MissingFields | Submitted

  /** The six fields submission needs: name, e-mail, purpose, city, and both
      dates (a missing key2 means a top-level field). */
  const RequiredFields: seq<(string, string)> := [
    ("requesterName", ""), ("requesterEmail", ""), ("purpose", ""),
    ("destination", "city"), ("dates", "start"), ("dates", "end")
  ]

  function ReadField(form: JsObject, path: (string, string)): JsValue {
    if path.1 == "" then Property(form, path.0) else NestedProperty(form, path.0, path.1)
  }

  lemma ReadRequiredFields(form: JsObject)
    ensures ReadField(form, RequiredFields[0]) == Property(form, "requesterName")
    ensures ReadField(form, RequiredFields[1]) == Property(form, "requesterEmail")
    ensures ReadField(form, RequiredFields[2]) == Property(form, "purpose")
    ensures ReadField(form, RequiredFields[3]) == NestedProperty(form, "destination", "city")
    ensures ReadField(form, RequiredFields[4]) == NestedProperty(form, "dates", "start")
    ensures ReadField(form, RequiredFields[5]) == NestedProperty(form, "dates", "end")
  {
  }

  /** `handleSubmit`'s guard: any of the six fields falsy stops the
      submission. Nothing else is checked: not the other fields, not that
      the end comes after the start, not the e-mail's shape, and a text of
      spaces is truthy. */
  function HandleSubmit(form: JsObject): (outcome: SubmitOutcome)
    ensures outcome == Submitted <==> forall path :: path in RequiredFields ==> Truthy(ReadField(form, path))
  {
    ReadRequiredFields(form);
    if !Truthy(Property(form, "requesterName")) || !Truthy(Property(form, "requesterEmail"))
      || !Truthy(Property(form, "purpose")) || !Truthy(NestedProperty(form, "destination", "city"))
      || !Truthy(NestedProperty(form, "dates", "start")) || !Truthy(NestedProperty(form, "dates", "end"))
    then MissingFields
    else Submitted
  }

  /** The untouched form cannot be submitted. */
  lemma InitialFormRejected()
    ensures HandleSubmit(InitialFormData) == MissingFields
  {
    assert !Truthy(ReadField(InitialFormData, RequiredFields[0]));
  }

  /** Forms that agree on the six required fields get the same outcome,
      whatever their address, schedule, accommodation or equipment. */
  lemma OnlyRequiredFieldsMatter(f: JsObject, g: JsObject)
    requires forall path :: path in RequiredFields ==> ReadField(f, path) == ReadField(g, path)
    ensures HandleSubmit(f) == HandleSubmit(g)
  {
  }

  /** A form of blank-looking names, a malformed e-mail and an end date
      before the start date is submitted. */
  lemma LaxValidation(form: JsObject)
    requires Property(form, "requesterName") == Str(" ")
    requires Property(form, "requesterEmail") == Str("not an e-mail")
    requires Property(form, "purpose") == Str(" ")
    requires NestedProperty(form, "destination", "city") == Str(" ")
    requires NestedProperty(form, "dates", "start") == DateValue(20)
    requires NestedProperty(form, "dates", "end") == DateValue(10)
    ensures HandleSubmit(form) == Submitted
  {
  }

  /** Writing three distinct top-level properties in turn leaves each of
      them holding what was written. */
  lemma FillTopLevel(f0: JsObject, k1: string, v1: JsValue, k2: string, v2: JsValue, k3: string, v3: JsValue)
    requires '.' !in k1 && '.' !in k2 && '.' !in k3
    requires k1 != k2 && k1 != k3 && k2 != k3
    ensures
      var f3 := NextFormData(NextFormData(NextFormData(f0, k1, v1), k2, v2), k3, v3);
      Property(f3, k1) == v1 && Property(f3, k2) == v2 && Property(f3, k3) == v3
  {
    var f1 := NextFormData(f0, k1, v1);
    var f2 := NextFormData(f1, k2, v2);
    UpdateTopLevel(f0, k1, v1);
    UpdateTopLevel(f1, k2, v2);
    UpdateTopLevel(f2, k3, v3);
  }

  /** Writing the city and both dates in turn leaves each of them holding
      what was written, and every top-level property outside the
      "destination" and "dates" sections as it was. */
  lemma FillSections(f3: JsObject, city: string, start: int, end: int)
    ensures
      var f6 := NextFormData(NextFormData(NextFormData(f3, "destination" + "." + "city", Str(city)),
                                          "dates" + "." + "start", DateValue(start)), "dates" + "." + "end", DateValue(end));
      NestedProperty(f6, "destination", "city") == Str(city) &&
      NestedProperty(f6, "dates", "start") == DateValue(start) &&
      NestedProperty(f6, "dates", "end") == DateValue(end) &&
      forall k :: k != "destination" && k != "dates" ==> Property(f6, k) == Property(f3, k)
  {
    var f4 := NextFormData(f3, "destination" + "." + "city", Str(city));
    var f5 := NextFormData(f4, "dates" + "." + "start", DateValue(start));
    UpdateNested(f3, "destination", "city", Str(city));
    UpdateNested(f4, "dates", "start", DateValue(start));
    UpdateNested(f5, "dates", "end", DateValue(end));
  }

  /** The six required fields all hold truthy values. */
  predicate RequiredFilled(form: JsObject) {
    && Truthy(Property(form, "requesterName"))
    && Truthy(Property(form, "requesterEmail"))
    && Truthy(Property(form, "purpose"))
    && Truthy(NestedProperty(form, "destination", "city"))
    && Truthy(NestedProperty(form, "dates", "start"))
    && Truthy(NestedProperty(form, "dates", "end"))
  }

  /** Submission succeeds exactly when the six required fields are truthy. */
  lemma SubmitIffRequiredFilled(form: JsObject)
    ensures HandleSubmit(form) == Submitted <==> RequiredFilled(form)
  {
    ReadRequiredFields(form);
  }

  /** The literal paths the form writes hold no '.' inside a key, and the
      keys written side by side are distinct. */
  lemma FieldPathsWellFormed()
    ensures '.' !in "requesterName" && '.' !in "requesterEmail" && '.' !in "purpose"
    ensures '.' !in "destination" && '.' !in "dates" && '.' !in "city" && '.' !in "start" && '.' !in "end"
    ensures "requesterName" != "requesterEmail" && "requesterName" != "purpose" && "requesterEmail" != "purpose"
    ensures "start" != "end"
  {}

  /** Writing non-empty texts to the name, e-mail, purpose and city and
      dates to both date fields, from any state, makes the form submittable. */
  lemma FillingRequiredSubmits(f0: JsObject, name: string, email: string, purpose: string,
                               city: string, start: int, end: int)
    requires name != "" && email != "" && purpose != "" && city != ""
    ensures
      var f3 := NextFormData(NextFormData(NextFormData(f0, "requesterName", Str(name)),
                                          "requesterEmail", Str(email)), "purpose", Str(purpose));
      var f6 := NextFormData(NextFormData(NextFormData(f3, "destination" + "." + "city", Str(city)),
                                          "dates" + "." + "start", DateValue(start)), "dates" + "." + "end", DateValue(end));
      RequiredFilled(f6)
  {
    FieldPathsWellFormed();
    var f3 := NextFormData(NextFormData(NextFormData(f0, "requesterName", Str(name)),
                                        "requesterEmail", Str(email)), "purpose", Str(purpose));
    FillTopLevel(f0, "requesterName", Str(name), "requesterEmail", Str(email), "purpose", Str(purpose));
    FillSections(f3, city, start, end);
  }

  /** A client of the form: filling the six required fields through the
      handler, starting from the initial state, makes the form submittable. */
  method FillRequiredAndSubmit(name: string, email: string, purpose: string, city: string, start: int, end: int)
    returns (outcome: SubmitOutcome)
    requires name != "" && email != "" && purpose != "" && city != ""
    ensures outcome == Submitted
  {
    var form := new TravelRequestForm();
    ghost var f0 := form.formData;
    form.UpdateFormData("requesterName", Str(name));
    form.UpdateFormData("requesterEmail", Str(email));
    form.UpdateFormData("purpose", Str(purpose));
    form.UpdateFormData("destination" + "." + "city", Str(city));
    form.UpdateFormData("dates" + "." + "start", DateValue(start));
    form.UpdateFormData("dates" + "." + "end", DateValue(end));
    FillingRequiredSubmits(f0, name, email, purpose, city, start, end);
    SubmitIffRequiredFilled(form.formData);
    outcome := HandleSubmit(form.formData);
  }

  /** The form component's state and its field-update handler. */
  class TravelRequestForm {
    var formData: JsObject

    constructor ()
      ensures formData == InitialFormData
    {
      formData := InitialFormData;
    }

    /** `updateFormData(field, value)`. */
    method UpdateFormData(field: string, value: JsValue)
      modifies this
      ensures formData == NextFormData(old(formData), field, value)
    {
      formData := NextFormData(formData, field, value);
    }
  }
}
