/** Request validation as the services use zod: each schema lists its
    fields in order, a field reports its `required_error` when the value is
    absent, its `invalid_type_error` when the value has the wrong type (a
    JavaScript `NaN` counts as a wrong type), and its refinement message
    when the value fails `.min` or `.email`; the service reports only the
    first issue, `error.errors[0]`, which is the issue of the first failing
    field in declaration order. */
module Validation {
  import opened Wrappers

  /** One request value as the schema sees it. */
  datatype Input<+T> = Missing | WrongType | Val(value: T)

  /** An optional `.min(least, { message })` refinement. */
  datatype Bound<+T> = NoMin | Min(least: T, message: string)

  /** `z.string({ required_error, invalid_type_error })`, with a minimum
      length in UTF-16 code units. */
  datatype TextField = TextField(required: string, invalidType: string, min: Bound<nat>)

  /** `z.string(...).email({ message })`; the format check itself is a
      parameter. */
  datatype EmailField = EmailField(
    required: string, invalidType: string, isEmail: string -> bool, invalidEmail: string)

  /** `z.number(...)` used for ids and quantities (whole numbers). */
  datatype IntField = IntField(required: string, invalidType: string, min: Bound<int>)

  /** `z.number(...)` used for prices. */
  datatype PriceField = PriceField(required: string, invalidType: string, min: Bound<real>)

  /** A field of a schema together with the value the request gave it. */
  datatype Field =
    | TextValue(text: TextField, s: Input<string>)
    | EmailValue(email: EmailField, e: Input<string>)
    | IntValue(number: IntField, n: Input<int>)
    | PriceValue(price: PriceField, p: Input<real>)

  /** The length a JavaScript string reports, which zod's `.min` compares:
      UTF-16 code units, so a character above U+FFFF (stored as a surrogate
      pair) counts twice. */
  function Utf16Length(s: string): (n: nat)
    ensures |s| <= n <= 2 * |s|
    ensures n == |s| <==> forall i :: 0 <= i < |s| ==> s[i] as int <= 0xFFFF
    ensures n == 2 * |s| <==> forall i :: 0 <= i < |s| ==> s[i] as int > 0xFFFF
    decreases |s|
  {
    if |s| == 0 then 0
    else
      var rest := Utf16Length(s[1..]);
      assert forall i :: 1 <= i < |s| ==> s[i] == s[1..][i - 1];
      (if s[0] as int > 0xFFFF then 2 else 1) + rest
  }

  /** The value is present, of the right type and meets the refinement. */
  predicate Passes(f: Field)
  {
    match f
    case TextValue(spec, x) => x.Val? && (spec.min.Min? ==> Utf16Length(x.value) >= spec.min.least)
    case EmailValue(spec, x) => x.Val? && spec.isEmail(x.value)
    case IntValue(spec, x) => x.Val? && (spec.min.Min? ==> x.value >= spec.min.least)
    case PriceValue(spec, x) => x.Val? && (spec.min.Min? ==> x.value >= spec.min.least)
  }

  function RequiredMessage(f: Field): string
  {
    match f
    case TextValue(spec, _) => spec.required
    case EmailValue(spec, _) => spec.required
    case IntValue(spec, _) => spec.required
    case PriceValue(spec, _) => spec.required
  }

  function InvalidTypeMessage(f: Field): string
  {
    match f
    case TextValue(spec, _) => spec.invalidType
    case EmailValue(spec, _) => spec.invalidType
    case IntValue(spec, _) => spec.invalidType
    case PriceValue(spec, _) => spec.invalidType
  }

  function RefinementMessage(f: Field): string
  {
    match f
    case TextValue(spec, _) => if spec.min.Min? then spec.min.message else ""
    case EmailValue(spec, _) => spec.invalidEmail
    case IntValue(spec, _) => if spec.min.Min? then spec.min.message else ""
    case PriceValue(spec, _) => if spec.min.Min? then spec.min.message else ""
  }

  predicate IsMissing(f: Field)
  {
    match f
    case TextValue(_, x) => x.Missing?
    case EmailValue(_, x) => x.Missing?
    case IntValue(_, x) => x.Missing?
    case PriceValue(_, x) => x.Missing?
  }

  predicate IsWrongType(f: Field)
  {
    match f
    case TextValue(_, x) => x.WrongType?
    case EmailValue(_, x) => x.WrongType?
    case IntValue(_, x) => x.WrongType?
    case PriceValue(_, x) => x.WrongType?
  }

  /** The message zod reports for one field, if it fails. */
  function FieldIssue(f: Field): (r: Option<string>)
    ensures r.None? <==> Passes(f)
    ensures IsMissing(f) ==> r == Some(RequiredMessage(f))
    ensures IsWrongType(f) ==> r == Some(InvalidTypeMessage(f))
    ensures !IsMissing(f) && !IsWrongType(f) && !Passes(f) ==> r == Some(RefinementMessage(f))
  {
    if IsMissing(f) then Some(RequiredMessage(f))
    else if IsWrongType(f) then Some(InvalidTypeMessage(f))
    else if Passes(f) then None
    else Some(RefinementMessage(f))
  }

  /** The first issue of a schema: `None` exactly when every field passes,
      otherwise the issue of the first field that fails. */
  function FirstIssue(fields: seq<Field>): (r: Option<string>)
    ensures r.None? <==> forall i :: 0 <= i < |fields| ==> Passes(fields[i])
    ensures r.Some? ==>
      exists i :: 0 <= i < |fields| && !Passes(fields[i]) && r == FieldIssue(fields[i]) &&
        forall j :: 0 <= j < i ==> Passes(fields[j])
    decreases |fields|
  {
    if |fields| == 0 then None
    else if !Passes(fields[0]) then FieldIssue(fields[0])
    else
      var rest := FirstIssue(fields[1..]);
      assert rest.Some? ==>
        exists i :: 0 <= i < |fields| && !Passes(fields[i]) && rest == FieldIssue(fields[i]) &&
          forall j :: 0 <= j < i ==> Passes(fields[j])
      by {
        if rest.Some? {
          var i :| 0 <= i < |fields[1..]| && !Passes(fields[1..][i]) && rest == FieldIssue(fields[1..][i]) &&
            forall j :: 0 <= j < i ==> Passes(fields[1..][j]);
          assert fields[i + 1] == fields[1..][i];
          assert forall j :: 1 <= j < i + 1 ==> fields[j] == fields[1..][j - 1];
        }
      }
      rest
  }

  /** A failing field hides every field after it: when the fields before
      `k` pass and field `k` fails, the schema reports field `k`. */
  lemma {:induction false} FirstFailureWins(fields: seq<Field>, k: nat)
    requires k < |fields| && !Passes(fields[k])
    requires forall j :: 0 <= j < k ==> Passes(fields[j])
    ensures FirstIssue(fields) == FieldIssue(fields[k])
  {
    if k > 0 {
      assert Passes(fields[0]);
      FirstFailureWins(fields[1..], k - 1);
      assert fields[1..][k - 1] == fields[k];
    }
  }
}
