/**
 * `POST /api/volunteers` (app/api/volunteers/route.ts): the body is checked
 * against `volunteerSchema`, then the email is looked up in the volunteer
 * table, then one row is inserted. Every failure is answered with 400.
 */
module Volunteers {
  import opened Wrappers
  import PhoneMask

  /** A JSON value as the request body carries it. */
  datatype Value = VString(s: string) | VBool(b: bool) | VNumber(n: int) | VNull | VComposite

  /** What `request.json()` gives: a parse failure, a non-object, or an object's fields. */
  datatype Body = Unparsable | NonObject | Object(fields: map<string, Value>)

  /** The validated data (`validatedData`). */
  datatype Candidate = Candidate(name: string, email: string, phone: string, baptized: bool, ministry: string)

  /** A stored row of the volunteer table. */
  datatype Volunteer = Volunteer(id: nat, name: string, email: string, phone: string, baptized: bool, ministry: string)

  /** Where zod reports a problem: the body as a whole, or one field. */
  datatype Issue = NotAnObject | BadField(field: string)

  /** The JSON answer of the handler: the new row, a zod failure with its issues, or a bare error message. */
  datatype Reply =
    | Created(volunteer: Volunteer)
    | Invalid(error: string, details: seq<Issue>)
    | Error(error: string)

  datatype Response = Response(status: int, reply: Reply)

  /** A storage call that throws: the lookup, the insert, or neither. */
  datatype Fault = NoFault | LookupFails | InsertFails

  const InvalidData := "Dados inválidos"
  const DuplicateEmail := "Este email já está cadastrado"
  const ProcessingError := "Erro ao processar o formulário"

  const Fields := ["name", "email", "phone", "baptized", "ministry"]

  // ---- volunteerSchema ------------------------------------------------------

  function Get(fields: map<string, Value>, key: string): Option<Value> {
    if key in fields then Some(fields[key]) else None
  }

  /** `z.string().min(n)`: a string of at least `n` characters. */
  predicate StringOfAtLeast(f: Option<Value>, n: nat) {
    f.Some? && f.value.VString? && |f.value.s| >= n
  }

  /** `z.string().email()`, with the format check itself left as the predicate `validEmail`. */
  predicate EmailRule(f: Option<Value>, validEmail: string -> bool) {
    f.Some? && f.value.VString? && validEmail(f.value.s)
  }

  /** `z.boolean()`. */
  predicate BoolRule(f: Option<Value>) {
    f.Some? && f.value.VBool?
  }

  /** Whether field `key` meets its rule in `volunteerSchema`. */
  predicate FieldOk(fields: map<string, Value>, key: string, validEmail: string -> bool) {
    match key
    case "name" => StringOfAtLeast(Get(fields, key), 3)
    case "email" => EmailRule(Get(fields, key), validEmail)
    case "phone" => StringOfAtLeast(Get(fields, key), 14)
    case "baptized" => BoolRule(Get(fields, key))
    case "ministry" => StringOfAtLeast(Get(fields, key), 1)
    case _ => true
  }

  /** The schema as one condition on the five fields: each of them meets its own rule. */
  predicate MeetsSchema(fields: map<string, Value>, validEmail: string -> bool): (ok: bool)
    ensures ok <==> forall k :: k in Fields ==> FieldOk(fields, k, validEmail)
  {
    assert forall k :: k in Fields <==> k in {"name", "email", "phone", "baptized", "ministry"};
    assert FieldOk(fields, "name", validEmail) == StringOfAtLeast(Get(fields, "name"), 3);
    assert FieldOk(fields, "email", validEmail) == EmailRule(Get(fields, "email"), validEmail);
    assert FieldOk(fields, "phone", validEmail) == StringOfAtLeast(Get(fields, "phone"), 14);
    assert FieldOk(fields, "baptized", validEmail) == BoolRule(Get(fields, "baptized"));
    assert FieldOk(fields, "ministry", validEmail) == StringOfAtLeast(Get(fields, "ministry"), 1);
    && StringOfAtLeast(Get(fields, "name"), 3)
    && EmailRule(Get(fields, "email"), validEmail)
    && StringOfAtLeast(Get(fields, "phone"), 14)
    && BoolRule(Get(fields, "baptized"))
    && StringOfAtLeast(Get(fields, "ministry"), 1)
  }

  /** The fields among `keys` that fail their rule, in schema order. */
  function Issues(fields: map<string, Value>, keys: seq<string>, validEmail: string -> bool): (r: seq<Issue>)
    ensures forall k :: k in keys ==> (BadField(k) in r <==> !FieldOk(fields, k, validEmail))
    ensures forall i :: i in r ==> i.BadField? && i.field in keys
    ensures |r| <= |keys|
  {
    if keys == [] then []
    else (if FieldOk(fields, keys[0], validEmail) then [] else [BadField(keys[0])])
         + Issues(fields, keys[1..], validEmail)
  }

  /** `volunteerSchema.parse(body)` on a parsed body: the validated data, or the list of issues. */
  function Validate(body: Body, validEmail: string -> bool): (r: Result<Candidate, seq<Issue>>)
    requires !body.Unparsable?
    ensures r.Success? <==> body.Object? && MeetsSchema(body.fields, validEmail)
    ensures r.Success? ==> r.value == Candidate(
      body.fields["name"].s, body.fields["email"].s, body.fields["phone"].s,
      body.fields["baptized"].b, body.fields["ministry"].s)
    ensures r.Failure? ==> r.error != []
  {
    match body
    case NonObject => Failure([NotAnObject])
    case Object(fields) =>
      var issues := Issues(fields, Fields, validEmail);
      SchemaIffNoIssues(fields, validEmail);
      if issues == [] then
        Success(Candidate(fields["name"].s, fields["email"].s, fields["phone"].s,
                          fields["baptized"].b, fields["ministry"].s))
      else Failure(issues)
  }

  /** The schema holds exactly when no field has an issue. */
  lemma SchemaIffNoIssues(fields: map<string, Value>, validEmail: string -> bool)
    ensures MeetsSchema(fields, validEmail) <==> Issues(fields, Fields, validEmail) == []
  {
    var issues := Issues(fields, Fields, validEmail);
    assert forall k :: k in Fields ==> (BadField(k) in issues <==> !FieldOk(fields, k, validEmail));
    assert Fields[0] == "name" && Fields[1] == "email" && Fields[2] == "phone";
    assert Fields[3] == "baptized" && Fields[4] == "ministry";
    if issues == [] {
      assert FieldOk(fields, "name", validEmail) && FieldOk(fields, "email", validEmail);
      assert FieldOk(fields, "phone", validEmail) && FieldOk(fields, "baptized", validEmail);
      assert FieldOk(fields, "ministry", validEmail);
    } else {
      var i := issues[0];
      assert i in issues;
      assert i.field in Fields && !FieldOk(fields, i.field, validEmail);
      assert i.field == "name" || i.field == "email" || i.field == "phone"
          || i.field == "baptized" || i.field == "ministry";
    }
  }

  /** Each of the five rules on its own is enough to reject an object body, and is named in the details. */
  lemma IssueNamesEveryFailingField(fields: map<string, Value>, validEmail: string -> bool, k: string)
    requires k in Fields
    ensures !FieldOk(fields, k, validEmail) <==> BadField(k) in Issues(fields, Fields, validEmail)
    ensures !FieldOk(fields, k, validEmail) ==> Validate(Object(fields), validEmail).Failure?
  {
  }

  /** `ministry` is free text: any non-empty string passes, there is no fixed list. */
  lemma MinistryIsFreeText(fields: map<string, Value>, validEmail: string -> bool, m: string)
    requires MeetsSchema(fields, validEmail) && m != ""
    ensures Validate(Object(fields["ministry" := VString(m)]), validEmail).Success?
    ensures Validate(Object(fields["ministry" := VString(m)]), validEmail).value.ministry == m
  {
    var f' := fields["ministry" := VString(m)];
    assert Get(f', "name") == Get(fields, "name");
    assert Get(f', "email") == Get(fields, "email");
    assert Get(f', "phone") == Get(fields, "phone");
    assert Get(f', "baptized") == Get(fields, "baptized");
  }

  /** A phone typed through the page's mask passes the server's phone rule exactly when ten or more digits were kept. */
  lemma MaskedPhonePassesIffTenDigits(typed: string)
    ensures StringOfAtLeast(Some(VString(PhoneMask.FormatPhone(typed))), 14)
            <==> |PhoneMask.Cleaned(typed)| >= 10
  {
    PhoneMask.LongEnoughIffTenDigits(typed);
  }

  // ---- the volunteer table --------------------------------------------------

  /** The volunteer table, indexed by its unique email column. */
  class VolunteerTable {
    var rows: map<string, Volunteer>
    var nextId: nat

    /** Every row sits under its own email and has an id below `nextId`; no two rows share an id. */
    ghost predicate Valid()
      reads this
    {
      && (forall e :: e in rows ==> rows[e].email == e && rows[e].id < nextId)
      && (forall e1, e2 :: e1 in rows && e2 in rows && e1 != e2 ==> rows[e1].id != rows[e2].id)
    }

    constructor ()
      ensures Valid() && rows == map[]
    {
      rows := map[];
      nextId := 0;
    }
  }

  /** No two rows of a valid table share an email or an id. */
  lemma UniqueRows(db: VolunteerTable, e1: string, e2: string)
    requires db.Valid() && e1 in db.rows && e2 in db.rows && e1 != e2
    ensures db.rows[e1].email != db.rows[e2].email
    ensures db.rows[e1].id != db.rows[e2].id
  {
  }

  /** The handler `POST`. */
  method Post(db: VolunteerTable, body: Body, validEmail: string -> bool, fault: Fault) returns (resp: Response)
    requires db.Valid()
    modifies db
    ensures db.Valid()
    ensures resp.status == 201 || resp.status == 400
    ensures body.Unparsable? ==>
      resp == Response(400, Error(ProcessingError)) && db.rows == old(db.rows)
    ensures !body.Unparsable? && Validate(body, validEmail).Failure? ==>
      resp == Response(400, Invalid(InvalidData, Validate(body, validEmail).error)) && db.rows == old(db.rows)
    ensures !body.Unparsable? && Validate(body, validEmail).Success? ==>
      var c := Validate(body, validEmail).value;
      if fault == LookupFails then
        resp == Response(400, Error(ProcessingError)) && db.rows == old(db.rows)
      else if c.email in old(db.rows) then
        resp == Response(400, Error(DuplicateEmail)) && db.rows == old(db.rows)
      else if fault == InsertFails then
        resp == Response(400, Error(ProcessingError)) && db.rows == old(db.rows)
      else
        var v := Volunteer(old(db.nextId), c.name, c.email, c.phone, c.baptized, c.ministry);
        resp == Response(201, Created(v)) && db.rows == old(db.rows)[c.email := v]
  {
    if body.Unparsable? {
      return Response(400, Error(ProcessingError));
    }
    var validated := Validate(body, validEmail);
    if validated.Failure? {
      return Response(400, Invalid(InvalidData, validated.error));
    }
    var c := validated.value;
    if fault == LookupFails {
      return Response(400, Error(ProcessingError));
    }
    if c.email in db.rows {
      return Response(400, Error(DuplicateEmail));
    }
    if fault == InsertFails {
      return Response(400, Error(ProcessingError));
    }
    var v := Volunteer(db.nextId, c.name, c.email, c.phone, c.baptized, c.ministry);
    db.rows := db.rows[c.email := v];
    db.nextId := db.nextId + 1;
    resp := Response(201, Created(v));
  }

  /** Two sign-ups with the same email: the second is refused and one row remains. */
  method TwoSignUpsSameEmail(body: Body, validEmail: string -> bool)
    requires body.Object? && MeetsSchema(body.fields, validEmail)
  {
    var db := new VolunteerTable();
    var first := Post(db, body, validEmail, NoFault);
    assert first.status == 201;
    var second := Post(db, body, validEmail, NoFault);
    assert second == Response(400, Error(DuplicateEmail));
    assert |db.rows| == 1;
  }
}
