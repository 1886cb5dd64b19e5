/** Stored data objects and certificates: one CBOR array of ten items.  The schema name
    and the checks of the attributes and the certificate are parameters. */
module DataObject {
  import opened Common
  import opened Cbor

  datatype Material =
    | Data(instance: seq<byte>, application: seq<byte>, objectId: seq<byte>, value: seq<byte>)
    | Certificate(instance: seq<byte>, value: seq<byte>)

  datatype Object = Object(name: seq<byte>, id: seq<byte>, private: bool, material: Material)

  datatype Checks = Checks(
    schema: seq<byte>,
    attributes: (u64, seq<byte>, seq<byte>, bool) -> bool,
    certificate: seq<byte> -> bool)

  type Context = c: Checks | Sized(c.schema) && forall i | 0 <= i < |c.schema| :: c.schema[i] < 0x80
    witness Checks([], (_, _, _, _) => false, _ => false)

  datatype DataInvalid = DataInvalid

  const CKO_DATA: u64 := 0
  const CKO_CERTIFICATE: u64 := 1

  // ------------------------------------------------------------------- encoding

  datatype Attributes = Attributes(name: seq<byte>, id: seq<byte>, private: bool)
  datatype Bodies = Bodies(application: seq<byte>, objectId: seq<byte>, value: seq<byte>, instance: seq<byte>)

  predicate SizedCommon(c: Attributes) { Sized(c.name) && ValidUtf8(c.name) && Sized(c.id) }

  predicate SizedBodies(b: Bodies) {
    Sized(b.application) && Sized(b.objectId) && Sized(b.value) && |b.instance| == 16
  }

  function BodyBytes(b: Bodies): seq<byte>
    requires SizedBodies(b)
  {
    String(BYTES, b.application) + (String(BYTES, b.objectId) + (String(BYTES, b.value) + String(BYTES, b.instance)))
  }

  function CommonBytes(c: Attributes): seq<byte>
    requires SizedCommon(c)
  {
    String(TEXT, c.name) + (String(BYTES, c.id) + Bool(c.private))
  }

  function Preamble(ctx: Context, class': u64): seq<byte> {
    Head(ARRAY, 10) + (String(TEXT, ctx.schema) + (Head(UNSIGNED, 1) + Head(UNSIGNED, class')))
  }

  function ClassOf(o: Object): u64 { if o.material.Data? then CKO_DATA else CKO_CERTIFICATE }

  function CommonOf(o: Object): Attributes { Attributes(o.name, o.id, o.private) }

  function BodiesOf(m: Material): Bodies {
    match m
    case Data(instance, application, objectId, value) => Bodies(application, objectId, value, instance)
    case Certificate(instance, value) => Bodies([], [], value, instance)
  }

  /** Text is UTF-8, lengths fit 64 bits and the instance has 16 bytes. */
  predicate Storable(o: Object) { SizedCommon(CommonOf(o)) && SizedBodies(BodiesOf(o.material)) }

  function Encode(ctx: Context, o: Object): seq<byte>
    requires Storable(o)
  {
    Preamble(ctx, ClassOf(o)) + (CommonBytes(CommonOf(o)) + BodyBytes(BodiesOf(o.material)))
  }

  // ------------------------------------------------------------------- decoding

  function ReadPreamble(ctx: Context, x: seq<byte>): Option<(u64, seq<byte>)> {
    var count := ReadCount(ARRAY, x);
    if count.None? || count.value.0 != Some(10) then None
    else
      var schema := ReadString(TEXT, count.value.1);
      if schema.None? || schema.value.0 != ctx.schema then None
      else
        var version := ReadUnsigned(schema.value.1);
        if version.None? || version.value.0 != 1 then None else ReadUnsigned(version.value.1)
  }

  function ReadBodies(x: seq<byte>): Option<(Bodies, seq<byte>)> {
    var application := ReadString(BYTES, x);
    if application.None? then None
    else
      var objectId := ReadString(BYTES, application.value.1);
      if objectId.None? then None
      else
        var value := ReadString(BYTES, objectId.value.1);
        if value.None? then None
        else
          var instance := ReadString(BYTES, value.value.1);
          if instance.None? || |instance.value.0| != 16 then None
          else Some((Bodies(application.value.0, objectId.value.0, value.value.0, instance.value.0), instance.value.1))
  }

  function ReadCommon(x: seq<byte>): Option<(Attributes, seq<byte>)> {
    var name := ReadString(TEXT, x);
    if name.None? then None
    else
      var id := ReadString(BYTES, name.value.1);
      if id.None? then None
      else
        var private := ReadBool(id.value.1);
        if private.None? then None else Some((Attributes(name.value.0, id.value.0, private.value.0), private.value.1))
  }

  function Build(ctx: Context, class': u64, c: Attributes, b: Bodies): Option<Object> {
    if !ctx.attributes(class', c.name, c.id, c.private) then None
    else if class' == CKO_CERTIFICATE then
      if b.application != [] || b.objectId != [] || !ctx.certificate(b.value) then None
      else Some(Object(c.name, c.id, c.private, Certificate(b.instance, b.value)))
    else Some(Object(c.name, c.id, c.private, Data(b.instance, b.application, b.objectId, b.value)))
  }

  /** The object the items describe, before the encoding is compared. */
  function Parse(ctx: Context, x: seq<byte>): Option<Object> {
    var class' := ReadPreamble(ctx, x);
    if class'.None? || (class'.value.0 != CKO_DATA && class'.value.0 != CKO_CERTIFICATE) then None
    else
      var common := ReadCommon(class'.value.1);
      if common.None? then None
      else
        var bodies := ReadBodies(common.value.1);
        if bodies.None? || bodies.value.1 != [] then None
        else Build(ctx, class'.value.0, common.value.0, bodies.value.0)
  }

  lemma CommonIsSized(x: seq<byte>)
    requires ReadCommon(x).Some?
    ensures SizedCommon(ReadCommon(x).value.0)
  {
  }

  lemma BodiesAreSized(x: seq<byte>)
    requires ReadBodies(x).Some?
    ensures SizedBodies(ReadBodies(x).value.0)
  {
  }

  lemma BuiltIsStorable(ctx: Context, class': u64, c: Attributes, b: Bodies)
    requires SizedCommon(c) && SizedBodies(b) && Build(ctx, class', c, b).Some?
    ensures Storable(Build(ctx, class', c, b).value)
  {
  }

  lemma ParsedIsStorable(ctx: Context, x: seq<byte>)
    ensures Parse(ctx, x).Some? ==> Storable(Parse(ctx, x).value)
  {
    if Parse(ctx, x).Some? {
      var class' := ReadPreamble(ctx, x).value;
      var common := ReadCommon(class'.1).value;
      CommonIsSized(class'.1);
      BodiesAreSized(common.1);
      BuiltIsStorable(ctx, class'.0, common.0, ReadBodies(common.1).value.0);
    }
  }

  /** The accepted objects: attributes that make an object and, for a certificate, a value
      that parses as one. */
  predicate Valid(ctx: Context, o: Object) {
    && ctx.attributes(ClassOf(o), o.name, o.id, o.private)
    && (o.material.Certificate? ==> ctx.certificate(o.material.value))
  }

  lemma PreambleRoundTrip(ctx: Context, class': u64, rest: seq<byte>)
    ensures ReadPreamble(ctx, Preamble(ctx, class') + rest) == Some((class', rest))
  {
    AsciiIsUtf8(ctx.schema);
    var last := Head(UNSIGNED, class') + rest;
    var version := Head(UNSIGNED, 1) + last;
    var schema := String(TEXT, ctx.schema) + version;
    assert Preamble(ctx, class') + rest == Head(ARRAY, 10) + schema;
    CountRoundTrip(ARRAY, 10, schema);
    StringRoundTrip(TEXT, ctx.schema, version);
    UnsignedRoundTrip(1, last);
    UnsignedRoundTrip(class', rest);
  }

  lemma BodiesRoundTrip(b: Bodies)
    requires SizedBodies(b)
    ensures ReadBodies(BodyBytes(b)) == Some((b, []))
  {
    var instance := String(BYTES, b.instance);
    var value := String(BYTES, b.value) + instance;
    StringRoundTrip(BYTES, b.application, String(BYTES, b.objectId) + value);
    StringRoundTrip(BYTES, b.objectId, value);
    StringRoundTrip(BYTES, b.value, instance);
    StringRoundTrip(BYTES, b.instance, []);
    assert instance + [] == instance;
  }

  lemma Regroup(a: seq<byte>, b: seq<byte>, p: seq<byte>, rest: seq<byte>)
    ensures (a + (b + p)) + rest == a + (b + (p + rest))
  {
  }

  lemma CommonRoundTrip(c: Attributes, rest: seq<byte>)
    requires SizedCommon(c)
    ensures ReadCommon(CommonBytes(c) + rest) == Some((c, rest))
  {
    var private := Bool(c.private) + rest;
    var id := String(BYTES, c.id) + private;
    Regroup(String(TEXT, c.name), String(BYTES, c.id), Bool(c.private), rest);
    StringRoundTrip(TEXT, c.name, id);
    StringRoundTrip(BYTES, c.id, private);
    BoolRoundTrip(c.private, rest);
  }

  lemma EncodedParses(ctx: Context, o: Object)
    requires Storable(o) && Valid(ctx, o)
    ensures Parse(ctx, Encode(ctx, o)) == Some(o)
  {
    var bodies := BodyBytes(BodiesOf(o.material));
    PreambleRoundTrip(ctx, ClassOf(o), CommonBytes(CommonOf(o)) + bodies);
    CommonRoundTrip(CommonOf(o), bodies);
    BodiesRoundTrip(BodiesOf(o.material));
  }

  /** Decoding accepts exactly the encodings of valid objects, although single heads may be
      read in a longer form: each object has one record and each record one object. */
  method DecodeDataObject(ctx: Context, x: seq<byte>) returns (r: Result<Object, DataInvalid>)
    ensures forall o | Storable(o) :: r == Ok(o) <==> Valid(ctx, o) && Encode(ctx, o) == x
    ensures r.Ok? ==> Storable(r.value)
  {
    var parsed := Parse(ctx, x);
    r := Err(DataInvalid);
    if parsed.Some? {
      ParsedIsStorable(ctx, x);
      if Encode(ctx, parsed.value) == x { r := Ok(parsed.value); }
    }
    forall o | Storable(o) && Valid(ctx, o) && Encode(ctx, o) == x ensures parsed == Some(o) {
      EncodedParses(ctx, o);
    }
  }
}
