/** The field rules of the `Contact` schema in contactModel.js, as a validator
    over row records. */
module ContactModel {
  import opened Wrappers
  import opened Records

  /** One schema path: every path is of type String; `required` and the
      optional `enum` list are the declared validators. */
  datatype FieldRule = FieldRule(path: string, required: bool, allowed: Option<seq<string>>)

  /** The declared schema, path by path in declaration order. */
  const ContactSchema: seq<FieldRule> := [
    FieldRule("fullName", true, None),
    FieldRule("email", true, None),
    FieldRule("phone", false, None),
    FieldRule("subject", true, None),
    FieldRule("message", true, None),
    FieldRule("preferredContact", true, Some(["email", "phone"]))
  ]

  /** A required String path is satisfied by a non-empty string only. */
  predicate Present(c: Cell)
  {
    c.Str? && |c.s| > 0
  }

  /** A value meets a rule: required paths are present, and an enum path holds
      one of its values unless it is unset. */
  predicate Satisfies(rule: FieldRule, c: Cell)
  {
    && (rule.required ==> Present(c))
    && (rule.allowed.Some? && c.Str? ==> c.s in rule.allowed.value)
  }

  /** No path is declared twice. */
  predicate DistinctPaths(schema: seq<FieldRule>)
  {
    forall i, j :: 0 <= i < j < |schema| ==> schema[i].path != schema[j].path
  }

  /** The paths of `schema` that `r` violates, in schema order. */
  function Violations(schema: seq<FieldRule>, r: Row): (errs: seq<string>)
    ensures |errs| <= |schema|
    ensures forall p :: p in errs ==>
      exists i :: 0 <= i < |schema| && schema[i].path == p && !Satisfies(schema[i], Lookup(r, p))
    ensures forall i :: 0 <= i < |schema| && !Satisfies(schema[i], Lookup(r, schema[i].path)) ==>
      schema[i].path in errs
    ensures DistinctPaths(schema) ==> forall i, j :: 0 <= i < j < |errs| ==> errs[i] != errs[j]
  {
    if schema == [] then []
    else
      var rest := Violations(schema[1..], r);
      assert forall i :: 1 <= i < |schema| ==> schema[i] == schema[1..][i - 1];
      var here := if Satisfies(schema[0], Lookup(r, schema[0].path)) then [] else [schema[0].path];
      here + rest
  }

  /** A record the schema accepts. */
  predicate IsValidContact(r: Row)
  {
    Violations(ContactSchema, r) == []
  }

  /** A record is valid exactly when it meets every rule of the schema. */
  lemma ValidIffAllRulesMet(r: Row)
    ensures IsValidContact(r) <==>
      forall i :: 0 <= i < |ContactSchema| ==> Satisfies(ContactSchema[i], Lookup(r, ContactSchema[i].path))
  {
    var errs := Violations(ContactSchema, r);
    if errs != [] {
      assert errs[0] in errs;
    }
  }

  /** The declared rules, written out for a record whose schema paths hold the given values. */
  predicate ContactRulesMet(fullName: Cell, email: Cell, subject: Cell, message: Cell, preferredContact: Cell)
  {
    && Present(fullName) && Present(email) && Present(subject) && Present(message)
    && (preferredContact == Str("email") || preferredContact == Str("phone"))
  }

  /** Validity is exactly the conjunction of the declared rules: the four
      required texts are present, and `preferredContact` is "email" or "phone". */
  lemma ValidContactIff(r: Row)
    ensures IsValidContact(r) <==> ContactRulesMet(
      Lookup(r, "fullName"), Lookup(r, "email"), Lookup(r, "subject"),
      Lookup(r, "message"), Lookup(r, "preferredContact"))
  {
    ValidIffAllRulesMet(r);
    var s := ContactSchema;
    var pc := Lookup(r, "preferredContact");
    if ContactRulesMet(Lookup(r, "fullName"), Lookup(r, "email"), Lookup(r, "subject"), Lookup(r, "message"), pc) {
      forall i | 0 <= i < |s| ensures Satisfies(s[i], Lookup(r, s[i].path)) {
        if i == 5 {
          assert pc.s in ["email", "phone"];
        }
      }
    } else {
      var k := if !Present(Lookup(r, "fullName")) then 0
        else if !Present(Lookup(r, "email")) then 1
        else if !Present(Lookup(r, "subject")) then 3
        else if !Present(Lookup(r, "message")) then 4
        else 5;
      assert !Satisfies(s[k], Lookup(r, s[k].path));
    }
  }

  /** A record without a full name is rejected, naming that path. */
  lemma MissingFullNameInvalid(r: Row)
    requires !Present(Lookup(r, "fullName"))
    ensures !IsValidContact(r)
    ensures "fullName" in Violations(ContactSchema, r)
  {
  }

  /** A record without an email address is rejected, naming that path. */
  lemma MissingEmailInvalid(r: Row)
    requires !Present(Lookup(r, "email"))
    ensures !IsValidContact(r)
    ensures "email" in Violations(ContactSchema, r)
  {
    assert !Satisfies(ContactSchema[1], Lookup(r, ContactSchema[1].path));
  }

  /** A record without a subject or without a message is rejected, naming the missing path. */
  lemma MissingSubjectOrMessageInvalid(r: Row)
    requires !Present(Lookup(r, "subject")) || !Present(Lookup(r, "message"))
    ensures !IsValidContact(r)
    ensures !Present(Lookup(r, "subject")) ==> "subject" in Violations(ContactSchema, r)
    ensures !Present(Lookup(r, "message")) ==> "message" in Violations(ContactSchema, r)
  {
    if !Present(Lookup(r, "subject")) {
      assert !Satisfies(ContactSchema[3], Lookup(r, ContactSchema[3].path));
    }
    if !Present(Lookup(r, "message")) {
      assert !Satisfies(ContactSchema[4], Lookup(r, ContactSchema[4].path));
    }
  }

  /** `preferredContact` other than "email" or "phone", or unset, is rejected. */
  lemma PreferredContactOutsideEnumInvalid(r: Row)
    requires Lookup(r, "preferredContact") != Str("email") && Lookup(r, "preferredContact") != Str("phone")
    ensures !IsValidContact(r)
    ensures "preferredContact" in Violations(ContactSchema, r)
  {
    assert !Satisfies(ContactSchema[5], Lookup(r, ContactSchema[5].path));
  }

  /** The phone is optional: a record meeting the other rules is valid whatever
      its phone, including none. */
  lemma PhoneOptional(r: Row)
    requires Present(Lookup(r, "fullName")) && Present(Lookup(r, "email"))
    requires Present(Lookup(r, "subject")) && Present(Lookup(r, "message"))
    requires Lookup(r, "preferredContact") == Str("email") || Lookup(r, "preferredContact") == Str("phone")
    ensures IsValidContact(r)
  {
    ValidContactIff(r);
  }

  /** Two records that agree on the schema's paths get the same violations. */
  lemma {:induction false} ViolationsReadOnlySchemaPaths(schema: seq<FieldRule>, r1: Row, r2: Row)
    requires forall i :: 0 <= i < |schema| ==> Lookup(r1, schema[i].path) == Lookup(r2, schema[i].path)
    ensures Violations(schema, r1) == Violations(schema, r2)
  {
    if schema != [] {
      assert forall i :: 1 <= i < |schema| ==> schema[i] == schema[1..][i - 1];
      ViolationsReadOnlySchemaPaths(schema[1..], r1, r2);
    }
  }

  /** No field outside the schema affects validity. */
  lemma OnlySchemaFieldsMatter(r1: Row, r2: Row)
    requires forall i :: 0 <= i < |ContactSchema| ==> Lookup(r1, ContactSchema[i].path) == Lookup(r2, ContactSchema[i].path)
    ensures IsValidContact(r1) <==> IsValidContact(r2)
  {
    ViolationsReadOnlySchemaPaths(ContactSchema, r1, r2);
  }
}
