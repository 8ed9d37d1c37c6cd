/**
  The tag-driven request binder of `Context` (context.go): `readParams` and its
  two entry points `ReadParams` and `ReadAndValidate`.

  Go reflection is replaced by an explicit description of the destination
  struct: each field carries its Go name, its kind and its already-parsed tag
  map (a tag key is "present" when it is a key of the map). The five request
  readers are abstract functions from a lookup name to a string; "absent" is
  the empty string, as in the source, which has no separate found flag.
 */
module Binding {
  import opened Wrappers
  import opened Strconv

  const StatusOK := 200
  const StatusBadRequest := 400
  const StatusInternalServerError := 500
  const StatusNotImplemented := 501

  type FloatWidth = b: nat | b == 32 || b == 64 witness 64

  /** The kind of a destination field, as `reflect.Type.Kind` classifies it,
      with the bit width for numeric kinds. */
  datatype Kind =
    | StringKind
    | IntKind(bits: IntWidth)
    | UintKind(bits: IntWidth)
    | FloatKind(fbits: FloatWidth)
    | BoolKind
    | BytesKind                          // a slice whose element kind is uint8
    | OtherSliceKind(typeName: string)   // any other slice
    | OtherKind(typeName: string)        // arrays, maps, structs, pointers, uintptr, ...

  /** One field of the destination struct: Go field name, kind, parsed tags. */
  datatype Field = Field(name: string, kind: Kind, tags: map<string, string>)

  /** A field's current value. Go strings are byte strings, so a `[]byte`
      field holds the same character sequence as the string it was set from. */
  datatype Value =
    | StrV(s: string)
    | IntV(i: int)
    | UintV(u: nat)
    | FloatV(f: real)
    | BoolV(b: bool)
    | BytesV(bytes: string)
    | OpaqueV    // a value of a kind the binder never writes

  /** The values a field of kind `k` can hold. */
  predicate Fits(k: Kind, v: Value) {
    match k
    case StringKind => v.StrV?
    case IntKind(bits) => v.IntV? && -(Pow2(bits - 1) as int) <= v.i < Pow2(bits - 1)
    case UintKind(bits) => v.UintV? && v.u < Pow2(bits)
    case FloatKind(_) => v.FloatV?
    case BoolKind => v.BoolV?
    case BytesKind => v.BytesV?
    case OtherSliceKind(_) => v.OpaqueV?
    case OtherKind(_) => v.OpaqueV?
  }

  /** A struct value: its fields' descriptions and their current values. */
  datatype Record = Record(fields: seq<Field>, values: seq<Value>)

  predicate WellFormed(rec: Record) {
    |rec.fields| == |rec.values|
  }

  predicate WellTyped(rec: Record) {
    WellFormed(rec) && forall j :: 0 <= j < |rec.fields| ==> Fits(rec.fields[j].kind, rec.values[j])
  }

  /** What `vals interface{}` can be: nil, something that is not a pointer, a
      pointer whose element is not a struct (a nil pointer included: its
      `Elem` is the invalid value), or a pointer to a struct. */
  datatype Target =
    | NilTarget
    | NonPointer
    | PointerToNonStruct
    | PointerToStruct(rec: Record)

  datatype BindError =
    | NotPointer                         // "vals must be pointer"
    | NotStructPointer                   // "vals must be pointer of struct"
    | NoValue(field: string)             // "no value specified for field %s"
    | ConversionFailed(num: string)      // a *strconv.NumError for input num
    | NotImplementedType(typeName: string) // "value of type %s not implemented"
    | ValidationFailed(msg: string)      // the validator's error

  /** The five readers of a request, keyed by a lookup name: `Param`,
      `QueryParam`, `FormValue`, `Header` and `CookieValue`. */
  datatype Request = Request(
    path: string -> string,
    query: string -> string,
    form: string -> string,
    header: string -> string,
    cookie: string -> string)

  /** Floating-point parsing (`strconv.ParseFloat`) is left abstract. */
  type FloatParser = (string, FloatWidth) -> Option<real>

  /** The tag keys that name a source, in the order they are tried. */
  const SourceTags: seq<string> := ["path", "query", "form", "header", "cookie"]
  const OptionalTag := "optional"
  const IgnoreErrorTag := "ignore-error"

  /** The reader registered for the `k`-th source tag, as the table of tag
      handlers pairs them. */
  function Reader(req: Request, k: nat): (r: string -> string)
    requires k < |SourceTags|
    ensures SourceTags[k] == "path" ==> r == req.path
    ensures SourceTags[k] == "query" ==> r == req.query
    ensures SourceTags[k] == "form" ==> r == req.form
    ensures SourceTags[k] == "header" ==> r == req.header
    ensures SourceTags[k] == "cookie" ==> r == req.cookie
  {
    if k == 0 then req.path
    else if k == 1 then req.query
    else if k == 2 then req.form
    else if k == 3 then req.header
    else req.cookie
  }

  /** The position in `SourceTags`, from `k` on, of the first key present in
      `tags`. */
  function FirstSourceTag(tags: map<string, string>, k: nat): (r: Option<nat>)
    requires k <= |SourceTags|
    ensures r.Some? ==> k <= r.value < |SourceTags| && SourceTags[r.value] in tags
    ensures r.Some? ==> forall j :: k <= j < r.value ==> SourceTags[j] !in tags
    ensures r.None? <==> forall j :: k <= j < |SourceTags| ==> SourceTags[j] !in tags
    decreases |SourceTags| - k
  {
    if k == |SourceTags| then None
    else if SourceTags[k] in tags then Some(k)
    else FirstSourceTag(tags, k + 1)
  }

  /** The raw string a field is bound from: the reader of the first source tag
      present, applied to that tag's value; "" when no source tag is present. */
  function RawValue(f: Field, req: Request): (r: string)
    ensures (forall j :: 0 <= j < |SourceTags| ==> SourceTags[j] !in f.tags) ==> r == ""
    ensures forall k :: 0 <= k < |SourceTags| && SourceTags[k] in f.tags &&
                        (forall j :: 0 <= j < k ==> SourceTags[j] !in f.tags) ==>
                          r == Reader(req, k)(f.tags[SourceTags[k]])
  {
    match FirstSourceTag(f.tags, 0)
    case None => ""
    case Some(k) => Reader(req, k)(f.tags[SourceTags[k]])
  }

  /** `strconv.ParseFloat` as the binder sees it: the empty string is a
      syntax error, and any other string is left to the parser. */
  function ParseFloat(s: string, bits: FloatWidth, parseFloat: FloatParser): (r: Option<real>)
    ensures s == "" ==> r.None?
    ensures s != "" ==> r == parseFloat(s, bits)
  {
    if s == "" then None else parseFloat(s, bits)
  }

  /** The conversion of a raw string to a field kind: a value, a conversion
      error, or an unsupported kind. */
  datatype Conversion = Converted(v: Value) | Unconvertible | Unsupported(typeName: string)

  function Convert(k: Kind, val: string, parseFloat: FloatParser): (c: Conversion)
    ensures c.Converted? ==> Fits(k, c.v)
    ensures c.Unsupported? <==> k.OtherSliceKind? || k.OtherKind?
    ensures k.StringKind? ==> c == Converted(StrV(val))
    ensures k.BytesKind? ==> c == Converted(BytesV(val))
    ensures k.IntKind? ==>
      c == if ParseInt(val, k.bits).Some? then Converted(IntV(ParseInt(val, k.bits).value)) else Unconvertible
    ensures k.UintKind? ==>
      c == if ParseUint(val, k.bits).Some? then Converted(UintV(ParseUint(val, k.bits).value)) else Unconvertible
    ensures k.BoolKind? ==>
      c == if ParseBool(val).Some? then Converted(BoolV(ParseBool(val).value)) else Unconvertible
    ensures k.FloatKind? ==>
      c == if val != "" && parseFloat(val, k.fbits).Some? then Converted(FloatV(parseFloat(val, k.fbits).value))
           else Unconvertible
  {
    match k
    case StringKind => Converted(StrV(val))
    case IntKind(bits) =>
      (match ParseInt(val, bits) case Some(i) => Converted(IntV(i)) case None => Unconvertible)
    case UintKind(bits) =>
      (match ParseUint(val, bits) case Some(u) => Converted(UintV(u)) case None => Unconvertible)
    case FloatKind(bits) =>
      (match ParseFloat(val, bits, parseFloat) case Some(x) => Converted(FloatV(x)) case None => Unconvertible)
    case BoolKind =>
      (match ParseBool(val) case Some(b) => Converted(BoolV(b)) case None => Unconvertible)
    case BytesKind => Converted(BytesV(val))
    case OtherSliceKind(name) => Unsupported(name)
    case OtherKind(name) => Unsupported(name)
  }

  /** What the loop body does to one field: leave it, store a value, or stop
      the whole bind with a status and an error. */
  datatype Step = Keep | Store(v: Value) | Fail(status: int, err: BindError)

  /** The effect of a step on the field's current value. */
  function Apply(s: Step, cur: Value): Value {
    if s.Store? then s.v else cur
  }

  /** One iteration of the loop of `readParams` for field `f`. `onlyRead` is
      the flag `readParams` receives: false from `ReadParams`, which enforces
      presence and honours `ignore-error`; true from `ReadAndValidate`,
      which does neither. */
  function FieldStep(f: Field, req: Request, onlyRead: bool, parseFloat: FloatParser): (s: Step)
    ensures s.Store? ==> Fits(f.kind, s.v)
    ensures s.Fail? ==> s.status == StatusBadRequest || s.status == StatusNotImplemented
    ensures s.Fail? && s.status == StatusNotImplemented ==> f.kind.OtherSliceKind? || f.kind.OtherKind?
    ensures s.Keep? ==> !onlyRead
    ensures (onlyRead || RawValue(f, req) != "") && Convert(f.kind, RawValue(f, req), parseFloat).Converted? ==>
              s == Store(Convert(f.kind, RawValue(f, req), parseFloat).v)
  {
    var val := RawValue(f, req);
    if !onlyRead && |val| == 0 then
      if OptionalTag in f.tags then Keep
      else Fail(StatusBadRequest, NoValue(f.name))
    else
      var ignoreError := !onlyRead && IgnoreErrorTag in f.tags;
      match Convert(f.kind, val, parseFloat)
      case Converted(v) => Store(v)
      case Unconvertible => if ignoreError then Keep else Fail(StatusBadRequest, ConversionFailed(val))
      case Unsupported(name) => Fail(StatusNotImplemented, NotImplementedType(name))
  }

  /** The step of every field, in order. A step depends only on the field and
      the request, never on the values bound so far, so the loop's steps can
      be taken up front. */
  function Steps(fields: seq<Field>, req: Request, onlyRead: bool, parseFloat: FloatParser): (ss: seq<Step>)
    ensures |ss| == |fields|
    ensures forall j :: 0 <= j < |fields| ==> ss[j] == FieldStep(fields[j], req, onlyRead, parseFloat)
  {
    seq(|fields|, j requires 0 <= j < |fields| => FieldStep(fields[j], req, onlyRead, parseFloat))
  }

  /** The position, from `i` on, of the first failing step; `|ss|` when none
      fails. */
  function FirstFail(ss: seq<Step>, i: nat): (k: nat)
    requires i <= |ss|
    ensures i <= k <= |ss|
    ensures forall j :: i <= j < k ==> !ss[j].Fail?
    ensures k < |ss| ==> ss[k].Fail?
    decreases |ss| - i
  {
    if i == |ss| then i
    else if ss[i].Fail? then i
    else FirstFail(ss, i + 1)
  }

  /** Status, error and field values after the loop. */
  datatype Outcome = Outcome(status: int, err: Option<BindError>, values: seq<Value>)

  /** The fail-fast fold of the loop over its steps, from step `i` on. */
  function Fold(ss: seq<Step>, values: seq<Value>, i: nat): (r: Outcome)
    requires |values| == |ss| && i <= |ss|
    ensures |r.values| == |ss|
    ensures var k := FirstFail(ss, i);
      && (r.err.None? <==> k == |ss|)
      && (r.err.None? ==> r.status == StatusOK)
      && (k < |ss| ==> r.status == ss[k].status && r.err == Some(ss[k].err))
      && (forall j :: 0 <= j < |ss| ==> r.values[j] == if i <= j < k then Apply(ss[j], values[j]) else values[j])
    decreases |ss| - i
  {
    if i == |ss| then Outcome(StatusOK, None, values)
    else if ss[i].Fail? then Outcome(ss[i].status, Some(ss[i].err), values)
    else Fold(ss, values[i := Apply(ss[i], values[i])], i + 1)
  }

  /** The index of the first field, from `i` on, whose step fails; `|fields|`
      when none does. */
  function FirstFailure(fields: seq<Field>, req: Request, onlyRead: bool, parseFloat: FloatParser, i: nat): (k: nat)
    requires i <= |fields|
    ensures i <= k <= |fields|
    ensures forall j :: i <= j < k ==> !FieldStep(fields[j], req, onlyRead, parseFloat).Fail?
    ensures k < |fields| ==> FieldStep(fields[k], req, onlyRead, parseFloat).Fail?
  {
    FirstFail(Steps(fields, req, onlyRead, parseFloat), i)
  }

  /** The loop of `readParams` from field `i` on, as a fail-fast fold: the
      first failing field stops the bind with its status and error; every
      field before it has had its step applied and every field from it on is
      untouched; 200 comes only after every field was processed. */
  function BindFrom(fields: seq<Field>, values: seq<Value>, i: nat, req: Request, onlyRead: bool,
                    parseFloat: FloatParser): (r: Outcome)
    requires |values| == |fields| && i <= |fields|
    ensures |r.values| == |fields|
    ensures var k := FirstFailure(fields, req, onlyRead, parseFloat, i);
      && (r.err.None? <==> k == |fields|)
      && (r.err.None? ==> r.status == StatusOK)
      && (k < |fields| ==>
            var s := FieldStep(fields[k], req, onlyRead, parseFloat);
            r.status == s.status && r.err == Some(s.err))
      && (forall j :: 0 <= j < |fields| ==>
            r.values[j] == if i <= j < k then Apply(FieldStep(fields[j], req, onlyRead, parseFloat), values[j])
                           else values[j])
  {
    Fold(Steps(fields, req, onlyRead, parseFloat), values, i)
  }

  /** Status, error and the destination after a bind. */
  datatype Bound = Bound(status: int, err: Option<BindError>, target: Target)

  predicate KnownStatus(status: int) {
    status in {StatusOK, StatusBadRequest, StatusInternalServerError, StatusNotImplemented}
  }

  /** `readParams`: nil binds nothing and succeeds; anything but a pointer to a
      struct is an internal error before any source is read; otherwise the
      fields are bound in order by the fail-fast loop. */
  function ReadParamsMode(target: Target, req: Request, onlyRead: bool, parseFloat: FloatParser): (r: Bound)
    requires target.PointerToStruct? ==> WellFormed(target.rec)
    ensures KnownStatus(r.status)
    ensures r.err.None? <==> r.status == StatusOK
    ensures target.NilTarget? ==> r == Bound(StatusOK, None, target)
    ensures target.NonPointer? ==> r == Bound(StatusInternalServerError, Some(NotPointer), target)
    ensures target.PointerToNonStruct? ==> r == Bound(StatusInternalServerError, Some(NotStructPointer), target)
    ensures target.PointerToStruct? ==>
      && r.target.PointerToStruct?
      && r.target.rec.fields == target.rec.fields
      && WellFormed(r.target.rec)
      && r.status != StatusInternalServerError
      && (WellTyped(target.rec) ==> WellTyped(r.target.rec))
    ensures target.PointerToStruct? ==>
      var fields := target.rec.fields;
      var k := FirstFailure(fields, req, onlyRead, parseFloat, 0);
      && (r.err.None? <==> k == |fields|)
      && (k < |fields| ==>
            var s := FieldStep(fields[k], req, onlyRead, parseFloat);
            r.status == s.status && r.err == Some(s.err))
      && (forall j :: 0 <= j < |fields| ==>
            r.target.rec.values[j] == if j < k then Apply(FieldStep(fields[j], req, onlyRead, parseFloat), target.rec.values[j])
                                      else target.rec.values[j])
  {
    match target
    case NilTarget => Bound(StatusOK, None, target)
    case NonPointer => Bound(StatusInternalServerError, Some(NotPointer), target)
    case PointerToNonStruct => Bound(StatusInternalServerError, Some(NotStructPointer), target)
    case PointerToStruct(rec) =>
      var o := BindFrom(rec.fields, rec.values, 0, req, onlyRead, parseFloat);
      var out := Record(rec.fields, o.values);
      assert WellTyped(rec) ==> WellTyped(out) by {
        if WellTyped(rec) {
          forall j | 0 <= j < |rec.fields|
            ensures Fits(rec.fields[j].kind, o.values[j])
          {
            var s := FieldStep(rec.fields[j], req, onlyRead, parseFloat);
            assert s.Store? ==> Fits(rec.fields[j].kind, s.v);
          }
        }
      }
      Bound(o.status, o.err, PointerToStruct(out))
  }

  /** `ReadParams`: `readParams` with `onlyRead` false. Its success promises
      that every field not marked optional found a non-empty value. */
  function ReadParams(target: Target, req: Request, parseFloat: FloatParser): (r: Bound)
    requires target.PointerToStruct? ==> WellFormed(target.rec)
    ensures r == ReadParamsMode(target, req, false, parseFloat)
    ensures target.PointerToStruct? && r.err.None? ==>
      forall j :: 0 <= j < |target.rec.fields| && OptionalTag !in target.rec.fields[j].tags ==>
        RawValue(target.rec.fields[j], req) != ""
  {
    var r := ReadParamsMode(target, req, false, parseFloat);
    assert target.PointerToStruct? && r.err.None? ==>
      forall j :: 0 <= j < |target.rec.fields| && OptionalTag !in target.rec.fields[j].tags ==>
        RawValue(target.rec.fields[j], req) != "" by {
      if target.PointerToStruct? && r.err.None? {
        var fields := target.rec.fields;
        var o := BindFrom(fields, target.rec.values, 0, req, false, parseFloat);
        assert FirstFailure(fields, req, false, parseFloat, 0) == |fields|;
        forall j | 0 <= j < |fields| && OptionalTag !in fields[j].tags
          ensures RawValue(fields[j], req) != ""
        {
          assert !FieldStep(fields[j], req, false, parseFloat).Fail?;
        }
      }
    }
    r
  }

  /** The validator (`validator.New().Struct`), left abstract: `None` when the
      bound destination is valid, otherwise the error text. */
  type Validator = Target -> Option<string>

  /** `ReadAndValidate`: `readParams` with `onlyRead` true; a failed bind is
      returned as it is without running the validator; otherwise the
      validator's error turns the status into 400, and its success keeps 200. */
  function ReadAndValidate(target: Target, req: Request, parseFloat: FloatParser, validate: Validator): (r: Bound)
    requires target.PointerToStruct? ==> WellFormed(target.rec)
    ensures var b := ReadParamsMode(target, req, true, parseFloat);
      && r.target == b.target
      && (b.err.Some? ==> r == b)
      && (b.err.None? ==> (r.err.None? <==> validate(b.target).None?))
      && (b.err.None? && validate(b.target).Some? ==>
            r.status == StatusBadRequest && r.err == Some(ValidationFailed(validate(b.target).value)))
    ensures r.err.None? <==> r.status == StatusOK
    ensures KnownStatus(r.status)
  {
    var b := ReadParamsMode(target, req, true, parseFloat);
    if b.err.Some? then b
    else
      match validate(b.target)
      case None => b
      case Some(msg) => Bound(StatusBadRequest, Some(ValidationFailed(msg)), b.target)
  }
}
