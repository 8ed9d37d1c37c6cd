/**
  Properties of the request binder stated over all inputs: which source a
  field reads, the presence and `optional` policy of `ReadParams`, the absence
  of that policy in `ReadAndValidate`, the `ignore-error` policy, unsupported
  kinds, integer round trips, and worked examples.
 */
module BindingLaws {
  import opened Wrappers
  import opened Strconv
  import opened Binding

  /** A field reads from the first source tag present in the order path,
      query, form, header, cookie; later source tags are ignored even when the
      winning reader yields ""; a field with no source tag reads "". */
  lemma SourcePrecedence(f: Field, req: Request, k: nat)
    requires k < |SourceTags| && SourceTags[k] in f.tags
    requires forall j :: 0 <= j < k ==> SourceTags[j] !in f.tags
    ensures RawValue(f, req) == Reader(req, k)(f.tags[SourceTags[k]])
  {
    assert FirstSourceTag(f.tags, 0).Some?;
  }

  lemma NoSourceTagReadsEmpty(f: Field, req: Request)
    requires forall j :: 0 <= j < |SourceTags| ==> SourceTags[j] !in f.tags
    ensures RawValue(f, req) == ""
  {
  }

  /** A `path` tag decides the field's value whatever the other sources hold. */
  lemma PathTagWins(f: Field, req: Request, req': Request)
    requires "path" in f.tags
    requires req'.path == req.path
    ensures RawValue(f, req) == RawValue(f, req') == req.path(f.tags["path"])
  {
    SourcePrecedence(f, req, 0);
    SourcePrecedence(f, req', 0);
  }

  /** Which source tag wins depends only on the source keys of the tag map. */
  lemma {:induction false} FirstSourceTagOnlySeesSourceKeys(tags: map<string, string>, tags': map<string, string>, k: nat)
    requires k <= |SourceTags|
    requires forall j :: k <= j < |SourceTags| ==>
      (SourceTags[j] in tags <==> SourceTags[j] in tags')
    ensures FirstSourceTag(tags, k) == FirstSourceTag(tags', k)
    decreases |SourceTags| - k
  {
    if k < |SourceTags| && SourceTags[k] !in tags {
      FirstSourceTagOnlySeesSourceKeys(tags, tags', k + 1);
    }
  }

  /** In `ReadParams` mode an absent value ("") leaves an `optional` field
      untouched whatever its kind (no 501 either), and is a 400 naming the Go
      field otherwise. */
  lemma PresencePolicy(f: Field, req: Request, parseFloat: FloatParser)
    requires RawValue(f, req) == ""
    ensures FieldStep(f, req, false, parseFloat) ==
      if OptionalTag in f.tags then Keep else Fail(StatusBadRequest, NoValue(f.name))
  {
  }

  /** Dropping the `optional` key from a field whose value is absent turns a
      skipped field into a 400 naming that field. */
  lemma RemovingOptionalRequiresValue(f: Field, req: Request, parseFloat: FloatParser)
    requires RawValue(f, req) == "" && OptionalTag in f.tags
    ensures FieldStep(f, req, false, parseFloat) == Keep
    ensures FieldStep(f.(tags := f.tags - {OptionalTag}), req, false, parseFloat)
         == Fail(StatusBadRequest, NoValue(f.name))
  {
    var g := f.(tags := f.tags - {OptionalTag});
    FirstSourceTagOnlySeesSourceKeys(f.tags, g.tags, 0);
    assert RawValue(g, req) == RawValue(f, req);
  }

  /** In `ReadParams` mode a field is never set from an absent value. */
  lemma ReadParamsNeverStoresEmpty(f: Field, req: Request, parseFloat: FloatParser)
    requires FieldStep(f, req, false, parseFloat).Store?
    ensures RawValue(f, req) != ""
  {
  }

  /** In `ReadAndValidate` mode there is no presence check: "" is converted, so
      string and []byte fields become empty while numeric and boolean fields
      fail with 400, and `optional` makes no difference. */
  lemma ValidatingModeConvertsEmpty(f: Field, req: Request, parseFloat: FloatParser)
    requires RawValue(f, req) == ""
    ensures f.kind.StringKind? ==> FieldStep(f, req, true, parseFloat) == Store(StrV(""))
    ensures f.kind.BytesKind? ==> FieldStep(f, req, true, parseFloat) == Store(BytesV(""))
    ensures f.kind.IntKind? || f.kind.UintKind? || f.kind.FloatKind? || f.kind.BoolKind? ==>
      FieldStep(f, req, true, parseFloat) == Fail(StatusBadRequest, ConversionFailed(""))
  {
    if f.kind.IntKind? || f.kind.UintKind? || f.kind.BoolKind? {
      EmptyNeverParses(if f.kind.IntKind? then f.kind.bits else if f.kind.UintKind? then f.kind.bits else 8);
    }
  }

  /** A present value that does not convert: with `ignore-error`, `ReadParams`
      keeps the field's prior value and goes on; without it, and always in
      `ReadAndValidate`, the bind stops with 400. */
  lemma IgnoreErrorPolicy(f: Field, req: Request, parseFloat: FloatParser)
    requires RawValue(f, req) != ""
    requires Convert(f.kind, RawValue(f, req), parseFloat).Unconvertible?
    ensures FieldStep(f, req, false, parseFloat) ==
      if IgnoreErrorTag in f.tags then Keep else Fail(StatusBadRequest, ConversionFailed(RawValue(f, req)))
    ensures FieldStep(f, req, true, parseFloat) == Fail(StatusBadRequest, ConversionFailed(RawValue(f, req)))
  {
  }

  /** String and `[]byte` fields take the raw value exactly as read, in both
      modes, whenever the presence check lets it through. */
  lemma StringAndBytesStoreVerbatim(f: Field, req: Request, onlyRead: bool, parseFloat: FloatParser)
    requires f.kind.StringKind? || f.kind.BytesKind?
    requires onlyRead || RawValue(f, req) != ""
    ensures FieldStep(f, req, onlyRead, parseFloat)
         == Store(if f.kind.StringKind? then StrV(RawValue(f, req)) else BytesV(RawValue(f, req)))
  {
  }

  /** Whatever the kind, a value the conversion accepts is the value the
      field gets, once the presence check lets the raw value through. */
  lemma ConvertedIsStored(f: Field, req: Request, onlyRead: bool, parseFloat: FloatParser)
    requires onlyRead || RawValue(f, req) != ""
    requires Convert(f.kind, RawValue(f, req), parseFloat).Converted?
    ensures FieldStep(f, req, onlyRead, parseFloat) == Store(Convert(f.kind, RawValue(f, req), parseFloat).v)
  {
  }

  /** Any kind other than string, integers, floats, bool and []byte is a 501
      once the field gets past the presence check, whatever `ignore-error`
      says. */
  lemma UnsupportedKindIsNotImplemented(f: Field, req: Request, onlyRead: bool, parseFloat: FloatParser)
    requires f.kind.OtherSliceKind? || f.kind.OtherKind?
    requires onlyRead || RawValue(f, req) != ""
    ensures FieldStep(f, req, onlyRead, parseFloat) == Fail(StatusNotImplemented, NotImplementedType(f.kind.typeName))
  {
  }

  /** A signed integer field bound from the decimal spelling of `x` gets
      exactly `x` when `x` fits the field's width, and a conversion error
      otherwise (skipped only under `ignore-error` in `ReadParams`). */
  lemma IntFieldRoundTrip(f: Field, req: Request, onlyRead: bool, parseFloat: FloatParser, x: int)
    requires f.kind.IntKind? && RawValue(f, req) == FormatInt(x)
    ensures var bits := f.kind.bits;
      FieldStep(f, req, onlyRead, parseFloat) ==
        if -(Pow2(bits - 1) as int) <= x < Pow2(bits - 1) then Store(IntV(x))
        else if !onlyRead && IgnoreErrorTag in f.tags then Keep
        else Fail(StatusBadRequest, ConversionFailed(FormatInt(x)))
  {
    IntRoundTrip(x, f.kind.bits);
  }

  /** The unsigned counterpart of `IntFieldRoundTrip`. */
  lemma UintFieldRoundTrip(f: Field, req: Request, onlyRead: bool, parseFloat: FloatParser, n: nat)
    requires f.kind.UintKind? && RawValue(f, req) == FormatUint(n)
    ensures FieldStep(f, req, onlyRead, parseFloat) ==
        if n < Pow2(f.kind.bits) then Store(UintV(n))
        else if !onlyRead && IgnoreErrorTag in f.tags then Keep
        else Fail(StatusBadRequest, ConversionFailed(FormatUint(n)))
  {
    UintRoundTrip(n, f.kind.bits);
  }

  /** A struct none of whose fields has a source tag: `ReadParams` succeeds,
      leaving every field as it was, exactly when every field is `optional`;
      otherwise it answers 400. Untagged fields are not skipped silently. */
  lemma UntaggedStructNeedsOptional(rec: Record, req: Request, parseFloat: FloatParser)
    requires WellFormed(rec)
    requires forall j, k :: 0 <= j < |rec.fields| && 0 <= k < |SourceTags| ==> SourceTags[k] !in rec.fields[j].tags
    ensures var r := ReadParams(PointerToStruct(rec), req, parseFloat);
      && (r.status == StatusOK <==> forall j :: 0 <= j < |rec.fields| ==> OptionalTag in rec.fields[j].tags)
      && (r.status != StatusOK ==> r.status == StatusBadRequest)
      && (r.status == StatusOK ==> r.target == PointerToStruct(rec))
  {
    var n := |rec.fields|;
    var k := FirstFailure(rec.fields, req, false, parseFloat, 0);
    forall j | 0 <= j < n
      ensures FieldStep(rec.fields[j], req, false, parseFloat)
           == if OptionalTag in rec.fields[j].tags then Keep else Fail(StatusBadRequest, NoValue(rec.fields[j].name))
    {
      NoSourceTagReadsEmpty(rec.fields[j], req);
    }
    var r := ReadParams(PointerToStruct(rec), req, parseFloat);
    if r.status == StatusOK {
      assert r.target.rec.values == rec.values;
    }
  }

  /** Binding a struct never fails with 500: that status is kept for a
      destination that is not a pointer to a struct, decided before any
      source is read. */
  lemma InternalErrorOnlyForBadTargets(target: Target, req: Request, req': Request, onlyRead: bool,
                                       parseFloat: FloatParser)
    requires target.PointerToStruct? ==> WellFormed(target.rec)
    ensures ReadParamsMode(target, req, onlyRead, parseFloat).status == StatusInternalServerError
        <==> target.NonPointer? || target.PointerToNonStruct?
    ensures !target.PointerToStruct? ==>
      ReadParamsMode(target, req, onlyRead, parseFloat) == ReadParamsMode(target, req', onlyRead, parseFloat)
  {
  }

  // ----- worked examples -----

  /** `struct { ID int `path:"id"`; Active bool `query:"active" optional:""` }`,
      zero-valued. */
  function ExampleRecord(): Record {
    Record(
      [Field("ID", IntKind(64), map["path" := "id"]),
       Field("Active", BoolKind, map["query" := "active", OptionalTag := ""])],
      [IntV(0), BoolV(false)])
  }

  /** A request with path parameter `id` and nothing else. */
  function PathOnly(id: string): Request {
    Request(n => if n == "id" then id else "", n => "", n => "", n => "", n => "")
  }

  /** The ID field reads "42" from the path and stores 42 in either mode. */
  lemma ExampleIdStep(parseFloat: FloatParser, onlyRead: bool)
    ensures FieldStep(ExampleRecord().fields[0], PathOnly("42"), onlyRead, parseFloat) == Store(IntV(42))
  {
    SourcePrecedence(ExampleRecord().fields[0], PathOnly("42"), 0);
    assert DigitsValue("42") == 42 by {
      assert "42"[..1] == "4";
    }
  }

  /** The optional Active field finds an empty query value: kept as it is
      when presence is checked, a bool conversion failure otherwise. */
  lemma ExampleActiveStep(parseFloat: FloatParser, onlyRead: bool)
    ensures FieldStep(ExampleRecord().fields[1], PathOnly("42"), onlyRead, parseFloat)
         == if onlyRead then Fail(StatusBadRequest, ConversionFailed("")) else Keep
  {
    SourcePrecedence(ExampleRecord().fields[1], PathOnly("42"), 1);
  }

  /** The steps of the `id=42` request, field by field. */
  lemma ExampleSteps(parseFloat: FloatParser, onlyRead: bool)
    ensures Steps(ExampleRecord().fields, PathOnly("42"), onlyRead, parseFloat)
         == [Store(IntV(42)), if onlyRead then Fail(StatusBadRequest, ConversionFailed("")) else Keep]
  {
    ExampleIdStep(parseFloat, onlyRead);
    ExampleActiveStep(parseFloat, onlyRead);
  }

  /** The loop over those steps: ID becomes 42, Active stays false, and the
      bind fails on Active exactly when presence is not checked. */
  lemma ExampleLoop(parseFloat: FloatParser, onlyRead: bool)
    ensures BindFrom(ExampleRecord().fields, ExampleRecord().values, 0, PathOnly("42"), onlyRead, parseFloat)
         == if onlyRead then Outcome(StatusBadRequest, Some(ConversionFailed("")), [IntV(42), BoolV(false)])
            else Outcome(StatusOK, None, [IntV(42), BoolV(false)])
  {
    ExampleSteps(parseFloat, onlyRead);
    var ss := Steps(ExampleRecord().fields, PathOnly("42"), onlyRead, parseFloat);
    assert ExampleRecord().values[0 := IntV(42)] == [IntV(42), BoolV(false)];
    assert Fold(ss, ExampleRecord().values, 0) == Fold(ss, [IntV(42), BoolV(false)], 1);
  }

  /** With `id=42` and no query string, `ReadParams` binds ID to 42 and leaves
      the optional Active false. */
  lemma ExampleId42(parseFloat: FloatParser)
    ensures ReadParams(PointerToStruct(ExampleRecord()), PathOnly("42"), parseFloat)
         == Bound(StatusOK, None, PointerToStruct(Record(ExampleRecord().fields, [IntV(42), BoolV(false)])))
  {
    ExampleLoop(parseFloat, false);
  }

  /** Without the presence check the bind stores ID and then fails on the
      empty `active`. */
  lemma ExampleId42OnlyRead(parseFloat: FloatParser)
    ensures ReadParamsMode(PointerToStruct(ExampleRecord()), PathOnly("42"), true, parseFloat)
         == Bound(StatusBadRequest, Some(ConversionFailed("")),
                  PointerToStruct(Record(ExampleRecord().fields, [IntV(42), BoolV(false)])))
  {
    ExampleLoop(parseFloat, true);
  }

  /** `ReadAndValidate`, which has no presence check, tries to parse the absent
      `active` as a bool and answers 400 before the validator runs. */
  lemma ExampleId42Validating(parseFloat: FloatParser, validate: Validator)
    ensures ReadAndValidate(PointerToStruct(ExampleRecord()), PathOnly("42"), parseFloat, validate)
         == Bound(StatusBadRequest, Some(ConversionFailed("")),
                  PointerToStruct(Record(ExampleRecord().fields, [IntV(42), BoolV(false)])))
  {
    ExampleId42OnlyRead(parseFloat);
  }

  /** With `id=abc` the bind stops at ID with a conversion error for "abc". */
  lemma ExampleIdAbc(parseFloat: FloatParser)
    ensures ReadParams(PointerToStruct(ExampleRecord()), PathOnly("abc"), parseFloat)
         == Bound(StatusBadRequest, Some(ConversionFailed("abc")), PointerToStruct(ExampleRecord()))
  {
    var rec := ExampleRecord();
    var req := PathOnly("abc");
    SourcePrecedence(rec.fields[0], req, 0);
    assert !IsDigit('a');
    assert FieldStep(rec.fields[0], req, false, parseFloat) == Fail(StatusBadRequest, ConversionFailed("abc"));
  }

  /** A required query parameter that is missing is a 400 naming the Go field
      (`Token`), not the tag value (`token`). */
  lemma ExampleMissingToken(parseFloat: FloatParser)
    ensures var rec := Record([Field("Token", StringKind, map["query" := "token"])], [StrV("")]);
      ReadParams(PointerToStruct(rec), PathOnly("1"), parseFloat)
        == Bound(StatusBadRequest, Some(NoValue("Token")), PointerToStruct(rec))
  {
    var rec := Record([Field("Token", StringKind, map["query" := "token"])], [StrV("")]);
    SourcePrecedence(rec.fields[0], PathOnly("1"), 1);
  }
}
