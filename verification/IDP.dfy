/**
 The issuingDistributionPoint of a CRL (internal/pki/idp.go), section 5.2.5 of
 RFC 5280, and which certificates a CRL without an entry shows unrevoked
 (CRLInfo.Covers in internal/pki/pki.go), section 6.3.3 of RFC 5280.
 */
module IDP {
  import opened Common
  import opened DER
  import opened PKI

  datatype Scope = Scope(
    hasDP: bool,
    uris: seq<string>,
    onlyUser: bool,
    onlyCA: bool,
    onlyAttr: bool,
    someReasons: bool,
    indirect: bool)

  const NOTHING: Scope := Scope(false, [], false, false, false, false, false)

  const URI: Byte := 0x86           // [6]
  const ONLY_USER: Byte := 0x81     // [1]
  const ONLY_CA: Byte := 0x82       // [2]
  const SOME_REASONS: Byte := 0x83  // [3]
  const INDIRECT: Byte := 0x84      // [4]
  const ONLY_ATTR: Byte := 0x85     // [5]
  const RELATIVE: Byte := 0xA1      // [1], constructed

  const OID_IDP: Bytes := [0x55, 0x1D, 0x1C]

  /** A Go string holds the octets themselves. */
  function Text(b: Bytes): string {
    seq(|b|, i requires 0 <= i < |b| => b[i] as char)
  }

  // ---------------------------------------------------------------- what the parser reads

  /** The names left of a fullName: its URIs, or None if malformed. */
  function Names(names: Bytes): Option<seq<string>>
    decreases |names|
  {
    if names == [] then Some([])
    else match ReadAny(names)
      case None => None
      case Some((e, rest)) =>
        match Names(rest)
        case None => None
        case Some(uris) => Some((if e.tag == URI then [Text(e.content)] else []) + uris)
  }

  function Flag(field: Bytes): bool {
    |field| == 1 && field[0] != 0
  }

  /** What one field of the SEQUENCE adds to the scope read so far. */
  function Field(e: Elem, idp: Scope): Option<Scope> {
    if e.tag == CONTEXT_0 then
      match Read(e.content, CONTEXT_0)
      case None => Some(idp.(hasDP := true))
      case Some((names, _)) =>
        (match Names(names)
         case None => None
         case Some(uris) => Some(idp.(hasDP := true, uris := idp.uris + uris)))
    else if e.tag == ONLY_USER then Some(idp.(onlyUser := Flag(e.content)))
    else if e.tag == ONLY_CA then Some(idp.(onlyCA := Flag(e.content)))
    else if e.tag == SOME_REASONS then Some(idp.(someReasons := true))
    else if e.tag == INDIRECT then Some(idp.(indirect := Flag(e.content)))
    else if e.tag == ONLY_ATTR then Some(idp.(onlyAttr := Flag(e.content)))
    else Some(idp)
  }

  function Fields(fields: Bytes, idp: Scope): Option<Scope>
    decreases |fields|
  {
    if fields == [] then Some(idp)
    else match ReadAny(fields)
      case None => None
      case Some((e, rest)) =>
        match Field(e, idp)
        case None => None
        case Some(idp') => Fields(rest, idp')
  }

  function Value(value: Bytes): Option<Scope> {
    match Read(value, SEQUENCE)
    case None => None
    case Some((fields, _)) => Fields(fields, NOTHING)
  }

  /** The extensions of a TBSCertList, the last [0] winning; None if malformed. */
  function Extensions(tbs: Bytes, found: Option<Bytes>): Option<Option<Bytes>>
    decreases |tbs|
  {
    if tbs == [] then Some(found)
    else match ReadAny(tbs)
      case None => None
      case Some((e, rest)) =>
        if e.tag != CONTEXT_0 then Extensions(rest, found)
        else match Read(e.content, SEQUENCE)
          case None => None
          case Some((exts, _)) => Extensions(rest, Some(exts))
  }

  /** One extension: its OID and value. */
  function Extension(ext: Bytes): Option<(Bytes, Bytes)> {
    match Read(ext, OBJECT_IDENTIFIER)
    case None => None
    case Some((oid, afterOid)) =>
      match SkipOptional(afterOid, BOOLEAN)
      case None => None
      case Some(afterCritical) =>
        match Read(afterCritical, OCTET_STRING)
        case None => None
        case Some((value, _)) => Some((oid, value))
  }

  /** The scope in an extension value; Err: malformed. */
  function ScopeIn(value: Bytes): Result<Option<Scope>, ()> {
    match Value(value) case None => Err(()) case Some(s) => Ok(Some(s))
  }

  /** Ok(None): no issuingDistributionPoint; Err: malformed. */
  function FindIDP(exts: Bytes): Result<Option<Scope>, ()>
    decreases |exts|
  {
    if exts == [] then Ok(None)
    else match Read(exts, SEQUENCE)
      case None => Err(())
      case Some((ext, rest)) =>
        match Extension(ext)
        case None => Err(())
        case Some((oid, value)) =>
          if oid == OID_IDP then ScopeIn(value) else FindIDP(rest)
  }

  function Parse(crl: Bytes): Result<Option<Scope>, ()> {
    match Read(crl, SEQUENCE)
    case None => Err(())
    case Some((list, _)) =>
      match Read(list, SEQUENCE)
      case None => Err(())
      case Some((tbs, _)) =>
        match Extensions(tbs, None)
        case None => Err(())
        case Some(None) => Ok(None)
        case Some(Some(exts)) => FindIDP(exts)
  }

  // ---------------------------------------------------------------- the parser

  lemma NamesStep(names: Bytes)
    requires names != [] && ReadAny(names).Some?
    ensures Names(names) == match Names(ReadAny(names).value.1)
      case None => None
      case Some(uris) =>
        Some((if ReadAny(names).value.0.tag == URI then [Text(ReadAny(names).value.0.content)] else []) + uris)
  {
  }

  /** The inner loop of parseIDPValue: appends the URIs of a fullName. */
  method ReadNames(field: Bytes, uris: seq<string>) returns (r: Option<seq<string>>)
    ensures r == match Names(field) case None => None case Some(us) => Some(uris + us)
  {
    var names, acc := field, uris;
    while names != []
      invariant (match Names(field) case None => None case Some(us) => Some(uris + us)) ==
                (match Names(names) case None => None case Some(us) => Some(acc + us))
      decreases |names|
    {
      var next := ReadAny(names);
      if next.None? { return None; }
      var (e, rest) := next.value;
      NamesStep(names);
      ghost var tail := Names(rest);
      if e.tag == URI {
        assert tail.Some? ==> acc + ([Text(e.content)] + tail.value) == acc + [Text(e.content)] + tail.value;
        acc := acc + [Text(e.content)];
      } else {
        assert tail.Some? ==> [] + tail.value == tail.value;
      }
      names := rest;
    }
    assert acc + [] == acc;
    r := Some(acc);
  }

  method ParseIDPValue(value: Bytes) returns (r: Option<Scope>)
    ensures r == Value(value)
  {
    var outer := Read(value, SEQUENCE);
    if outer.None? { return None; }
    var fields, idp := outer.value.0, NOTHING;
    while fields != []
      invariant Value(value) == Fields(fields, idp)
      decreases |fields|
    {
      var next := ReadAny(fields);
      if next.None? { return None; }
      var (e, rest) := next.value;
      if e.tag == CONTEXT_0 {
        var inner := Read(e.content, CONTEXT_0);
        if inner.Some? {
          var uris := ReadNames(inner.value.0, idp.uris);
          if uris.None? { return None; }
          idp := idp.(hasDP := true, uris := uris.value);
        } else {
          idp := idp.(hasDP := true);
        }
      } else if e.tag == ONLY_USER { idp := idp.(onlyUser := Flag(e.content)); }
      else if e.tag == ONLY_CA { idp := idp.(onlyCA := Flag(e.content)); }
      else if e.tag == SOME_REASONS { idp := idp.(someReasons := true); }
      else if e.tag == INDIRECT { idp := idp.(indirect := Flag(e.content)); }
      else if e.tag == ONLY_ATTR { idp := idp.(onlyAttr := Flag(e.content)); }
      fields := rest;
    }
    r := Some(idp);
  }

  /** parseIDP: terminates on all octets and reads what Parse says. */
  method ParseIDP(crl: Bytes) returns (r: Result<Option<Scope>, ()>)
    ensures r == Parse(crl)
  {
    var list := Read(crl, SEQUENCE);
    if list.None? { return Err(()); }
    var outer := Read(list.value.0, SEQUENCE);
    if outer.None? { return Err(()); }
    var tbs, found: Option<Bytes> := outer.value.0, None;
    while tbs != []
      invariant Extensions(outer.value.0, None) == Extensions(tbs, found)
      decreases |tbs|
    {
      var next := ReadAny(tbs);
      if next.None? { return Err(()); }
      var (e, rest) := next.value;
      if e.tag == CONTEXT_0 {
        var inner := Read(e.content, SEQUENCE);
        if inner.None? { return Err(()); }
        found := Some(inner.value.0);
      }
      tbs := rest;
    }
    if found.None? { return Ok(None); }
    var exts := found.value;
    while exts != []
      invariant Parse(crl) == FindIDP(exts)
      decreases |exts|
    {
      var next := Read(exts, SEQUENCE);
      if next.None? { return Err(()); }
      var ext := Extension(next.value.0);
      if ext.None? { return Err(()); }
      if ext.value.0 == OID_IDP {
        var idp := ParseIDPValue(ext.value.1);
        return if idp.None? then Err(()) else Ok(Some(idp.value));
      }
      exts := next.value.1;
    }
    r := Ok(None);
  }

  // ---------------------------------------------------------------- round trip

  /** The abstract syntax of the extension: a distributionPoint is a list of names or a relative name. */
  datatype DistributionPoint = FullName(names: seq<Elem>) | RelativeName(content: Bytes)

  datatype Point = Point(
    dp: Option<DistributionPoint>,
    onlyUser: bool,
    onlyCA: bool,
    reasons: Option<Bytes>,
    indirect: bool,
    onlyAttr: bool)

  function Uris(names: seq<Elem>): seq<string> {
    if names == [] then [] else (if names[0].tag == URI then [Text(names[0].content)] else []) + Uris(names[1..])
  }

  /** What a scope says of the extension. */
  function Meaning(p: Point): Scope {
    Scope(p.dp.Some?, if p.dp.Some? && p.dp.value.FullName? then Uris(p.dp.value.names) else [],
      p.onlyUser, p.onlyCA, p.onlyAttr, p.reasons.Some?, p.indirect)
  }

  const TRUE: Bytes := [0xFF]

  predicate ShortAll(es: seq<Elem>) {
    forall e :: e in es ==> |e.content| < MAX
  }

  predicate FitsAll(es: seq<Elem>) {
    forall e :: e in es ==> Fits(e)
  }

  function DPElem(dp: DistributionPoint): Elem
    requires dp.FullName? ==> ShortAll(dp.names) && |EncodeAll(dp.names)| < MAX
    requires dp.RelativeName? ==> |dp.content| < MAX
  {
    Elem(CONTEXT_0, match dp
      case FullName(names) => Encode(Elem(CONTEXT_0, EncodeAll(names)))
      case RelativeName(content) => Encode(Elem(RELATIVE, content)))
  }

  predicate DPFits(dp: DistributionPoint) {
    match dp
    case FullName(names) => FitsAll(names) && |EncodeAll(names)| + 12 < MAX
    case RelativeName(content) => |content| + 12 < MAX
  }

  function If(present: bool, e: Elem): seq<Elem> {
    if present then [e] else []
  }

  /** The fields of the SEQUENCE in the order of section 5.2.5 of RFC 5280. */
  function PointFields(p: Point): seq<Elem>
    requires p.dp.Some? ==> DPFits(p.dp.value)
  {
    (if p.dp.Some? then [DPElem(p.dp.value)] else [])
    + If(p.onlyUser, Elem(ONLY_USER, TRUE))
    + If(p.onlyCA, Elem(ONLY_CA, TRUE))
    + If(p.reasons.Some?, Elem(SOME_REASONS, if p.reasons.Some? then p.reasons.value else []))
    + If(p.indirect, Elem(INDIRECT, TRUE))
    + If(p.onlyAttr, Elem(ONLY_ATTR, TRUE))
  }

  predicate PointFits(p: Point) {
    && (p.dp.Some? ==> DPFits(p.dp.value))
    && (p.reasons.Some? ==> |p.reasons.value| + 6 < MAX)
    && FitsAll(PointFields(p))
    && |EncodeAll(PointFields(p))| + 6 < MAX
  }

  function EncodePoint(p: Point): Bytes
    requires PointFits(p)
  {
    Encode(Elem(SEQUENCE, EncodeAll(PointFields(p))))
  }

  lemma {:induction false} NamesOfEncoded(names: seq<Elem>)
    requires FitsAll(names)
    ensures Names(EncodeAll(names)) == Some(Uris(names))
  {
    if names != [] {
      assert forall e :: e in names[1..] ==> e in names;
      ReadEncoded(names[0], EncodeAll(names[1..]));
      NamesOfEncoded(names[1..]);
    }
  }

  /** Fields read from an encoding are folded in order. */
  function FoldFields(es: seq<Elem>, idp: Scope): Option<Scope> {
    if es == [] then Some(idp)
    else match Field(es[0], idp) case None => None case Some(idp') => FoldFields(es[1..], idp')
  }

  lemma {:induction false} FieldsOfEncoded(es: seq<Elem>, idp: Scope)
    requires FitsAll(es)
    ensures Fields(EncodeAll(es), idp) == FoldFields(es, idp)
  {
    if es != [] {
      assert forall e :: e in es[1..] ==> e in es;
      ReadEncoded(es[0], EncodeAll(es[1..]));
      match Field(es[0], idp)
      case None =>
      case Some(idp') => FieldsOfEncoded(es[1..], idp');
    }
  }

  lemma {:induction false} FoldAppend(a: seq<Elem>, b: seq<Elem>, idp: Scope)
    ensures FoldFields(a + b, idp) == match FoldFields(a, idp) case None => None case Some(i) => FoldFields(b, i)
  {
    if a == [] {
      assert a + b == b;
    } else {
      assert (a + b)[1..] == a[1..] + b;
      match Field(a[0], idp)
      case None =>
      case Some(idp') => FoldAppend(a[1..], b, idp');
    }
  }

  lemma DPField(dp: DistributionPoint)
    requires DPFits(dp)
    ensures Field(DPElem(dp), NOTHING) ==
      Some(NOTHING.(hasDP := true, uris := if dp.FullName? then Uris(dp.names) else []))
  {
    match dp
    case FullName(names) =>
      ReadEncoded(Elem(CONTEXT_0, EncodeAll(names)), []);
      assert Encode(Elem(CONTEXT_0, EncodeAll(names))) + [] == Encode(Elem(CONTEXT_0, EncodeAll(names)));
      NamesOfEncoded(names);
      assert NOTHING.uris + Uris(names) == Uris(names);
    case RelativeName(content) =>
      ReadEncoded(Elem(RELATIVE, content), []);
      assert Encode(Elem(RELATIVE, content)) + [] == Encode(Elem(RELATIVE, content));
  }

  lemma FoldIf(fields: seq<Elem>, present: bool, e: Elem, idp: Scope, idp': Scope)
    requires FoldFields(fields, NOTHING) == Some(idp)
    requires if present then Field(e, idp) == Some(idp') else idp' == idp
    ensures FoldFields(fields + If(present, e), NOTHING) == Some(idp')
  {
    FoldAppend(fields, If(present, e), NOTHING);
    assert present ==> If(present, e)[1..] == [];
  }

  lemma KindFields(f: seq<Elem>, user: bool, ca: bool, idp: Scope)
    requires FoldFields(f, NOTHING) == Some(idp) && !idp.onlyUser && !idp.onlyCA
    ensures FoldFields(f + If(user, Elem(ONLY_USER, TRUE)) + If(ca, Elem(ONLY_CA, TRUE)), NOTHING) ==
      Some(idp.(onlyUser := user, onlyCA := ca))
  {
    FoldIf(f, user, Elem(ONLY_USER, TRUE), idp, idp.(onlyUser := user));
    FoldIf(f + If(user, Elem(ONLY_USER, TRUE)), ca, Elem(ONLY_CA, TRUE),
      idp.(onlyUser := user), idp.(onlyUser := user, onlyCA := ca));
  }

  lemma ReasonField(f: seq<Elem>, some: bool, reasons: Bytes, idp: Scope)
    requires FoldFields(f, NOTHING) == Some(idp) && !idp.someReasons
    ensures FoldFields(f + If(some, Elem(SOME_REASONS, reasons)), NOTHING) == Some(idp.(someReasons := some))
  {
    FoldIf(f, some, Elem(SOME_REASONS, reasons), idp, idp.(someReasons := some));
  }

  lemma LastFields(f: seq<Elem>, indirect: bool, attr: bool, idp: Scope)
    requires FoldFields(f, NOTHING) == Some(idp) && !idp.indirect && !idp.onlyAttr
    ensures FoldFields(f + If(indirect, Elem(INDIRECT, TRUE)) + If(attr, Elem(ONLY_ATTR, TRUE)), NOTHING) ==
      Some(idp.(indirect := indirect, onlyAttr := attr))
  {
    FoldIf(f, indirect, Elem(INDIRECT, TRUE), idp, idp.(indirect := indirect));
    FoldIf(f + If(indirect, Elem(INDIRECT, TRUE)), attr, Elem(ONLY_ATTR, TRUE),
      idp.(indirect := indirect), idp.(indirect := indirect, onlyAttr := attr));
  }

  lemma PointFold(p: Point)
    requires p.dp.Some? ==> DPFits(p.dp.value)
    ensures FoldFields(PointFields(p), NOTHING) == Some(Meaning(p))
  {
    var f0 := if p.dp.Some? then [DPElem(p.dp.value)] else [];
    var i0 := NOTHING.(hasDP := p.dp.Some?, uris := Meaning(p).uris);
    if p.dp.Some? {
      DPField(p.dp.value);
      assert [DPElem(p.dp.value)][1..] == [];
    }
    assert FoldFields(f0, NOTHING) == Some(i0);
    RestFold(p, f0, i0);
  }

  lemma RestFold(p: Point, f0: seq<Elem>, i0: Scope)
    requires p.dp.Some? ==> DPFits(p.dp.value)
    requires FoldFields(f0, NOTHING) == Some(i0) && f0 == if p.dp.Some? then [DPElem(p.dp.value)] else []
    requires i0 == NOTHING.(hasDP := p.dp.Some?, uris := Meaning(p).uris)
    ensures FoldFields(PointFields(p), NOTHING) == Some(Meaning(p))
  {
    KindFields(f0, p.onlyUser, p.onlyCA, i0);
    var f2 := f0 + If(p.onlyUser, Elem(ONLY_USER, TRUE)) + If(p.onlyCA, Elem(ONLY_CA, TRUE));
    var i2 := i0.(onlyUser := p.onlyUser, onlyCA := p.onlyCA);
    var reasons := if p.reasons.Some? then p.reasons.value else [];
    ReasonField(f2, p.reasons.Some?, reasons, i2);
    LastFields(f2 + If(p.reasons.Some?, Elem(SOME_REASONS, reasons)), p.indirect, p.onlyAttr,
      i2.(someReasons := p.reasons.Some?));
  }

  /** Parsing the DER encoding of an extension gives its scope back. */
  lemma ValueRoundTrip(p: Point)
    requires PointFits(p)
    ensures Value(EncodePoint(p)) == Some(Meaning(p))
  {
    var fields := EncodeAll(PointFields(p));
    ReadEncoded(Elem(SEQUENCE, fields), []);
    assert EncodePoint(p) + [] == EncodePoint(p);
    FieldsOfEncoded(PointFields(p), NOTHING);
    PointFold(p);
  }

  /** An extension of a CRL; critical is its optional BOOLEAN. */
  datatype Ext = Ext(oid: Bytes, critical: Option<Bytes>, value: Bytes)

  predicate ExtFits(x: Ext) {
    |x.oid| + 6 < MAX && |x.value| + 6 < MAX && (x.critical.Some? ==> |x.critical.value| + 6 < MAX)
  }

  function ExtContent(x: Ext): Bytes
    requires ExtFits(x)
  {
    Encode(Elem(OBJECT_IDENTIFIER, x.oid))
    + ((if x.critical.Some? then Encode(Elem(BOOLEAN, x.critical.value)) else []) + Encode(Elem(OCTET_STRING, x.value)))
  }

  predicate ExtsFit(xs: seq<Ext>) {
    forall x :: x in xs ==> ExtFits(x) && |ExtContent(x)| + 6 < MAX
  }

  function EncodeExts(xs: seq<Ext>): Bytes
    requires ExtsFit(xs)
  {
    if xs == [] then []
    else
      assert forall x :: x in xs[1..] ==> x in xs;
      Encode(Elem(SEQUENCE, ExtContent(xs[0]))) + EncodeExts(xs[1..])
  }

  lemma ExtensionOfEncoded(x: Ext)
    requires ExtFits(x)
    ensures Extension(ExtContent(x)) == Some((x.oid, x.value))
  {
    var value := Encode(Elem(OCTET_STRING, x.value));
    var rest := (if x.critical.Some? then Encode(Elem(BOOLEAN, x.critical.value)) else []) + value;
    OneRead(Elem(OBJECT_IDENTIFIER, x.oid), rest);
    CriticalSkipped(x, value);
    OneRead(Elem(OCTET_STRING, x.value), []);
    assert value + [] == value;
    ExtensionUnfolds(ExtContent(x), x.oid, rest, value, x.value, []);
  }

  lemma OneRead(e: Elem, rest: Bytes)
    requires Fits(e)
    ensures Read(Encode(e) + rest, e.tag) == Some((e.content, rest))
  {
    ReadEncoded(e, rest);
  }

  lemma ExtensionUnfolds(ext: Bytes, oid: Bytes, afterOid: Bytes, afterCritical: Bytes, value: Bytes, rest: Bytes)
    requires Read(ext, OBJECT_IDENTIFIER) == Some((oid, afterOid))
    requires SkipOptional(afterOid, BOOLEAN) == Some(afterCritical)
    requires Read(afterCritical, OCTET_STRING) == Some((value, rest))
    ensures Extension(ext) == Some((oid, value))
  {
  }

  lemma CriticalSkipped(x: Ext, value: Bytes)
    requires ExtFits(x) && value == Encode(Elem(OCTET_STRING, x.value))
    ensures
      var rest := (if x.critical.Some? then Encode(Elem(BOOLEAN, x.critical.value)) else []) + value;
      SkipOptional(rest, BOOLEAN) == Some(value)
  {
    if x.critical.Some? { ReadEncoded(Elem(BOOLEAN, x.critical.value), value); } else { assert [] + value == value; }
  }

  /** The first issuingDistributionPoint among the extensions decides. */
  function IDPAmong(xs: seq<Ext>): Result<Option<Scope>, ()> {
    if xs == [] then Ok(None)
    else if xs[0].oid == OID_IDP then ScopeIn(xs[0].value)
    else IDPAmong(xs[1..])
  }

  lemma FindIDPStep(x: Ext, rest: Bytes)
    requires ExtFits(x) && |ExtContent(x)| + 6 < MAX
    ensures FindIDP(Encode(Elem(SEQUENCE, ExtContent(x))) + rest) ==
      if x.oid == OID_IDP then ScopeIn(x.value) else FindIDP(rest)
  {
    ReadEncoded(Elem(SEQUENCE, ExtContent(x)), rest);
    ExtensionOfEncoded(x);
    FindIDPUnfolds(Encode(Elem(SEQUENCE, ExtContent(x))) + rest, ExtContent(x), rest, x.oid, x.value);
  }

  lemma FindIDPUnfolds(exts: Bytes, ext: Bytes, rest: Bytes, oid: Bytes, value: Bytes)
    requires exts != [] && Read(exts, SEQUENCE) == Some((ext, rest)) && Extension(ext) == Some((oid, value))
    ensures FindIDP(exts) ==
      if oid == OID_IDP then ScopeIn(value) else FindIDP(rest)
  {
  }

  lemma {:induction false} FindIDPEncoded(xs: seq<Ext>)
    requires ExtsFit(xs)
    ensures FindIDP(EncodeExts(xs)) == IDPAmong(xs)
  {
    if xs != [] {
      assert forall x :: x in xs[1..] ==> x in xs;
      FindIDPStep(xs[0], EncodeExts(xs[1..]));
      FindIDPEncoded(xs[1..]);
    }
  }

  /** A CertificateList: other fields of the TBSCertList, extensions, and what follows it. */
  datatype CRLSyntax = CRLSyntax(fields: seq<Elem>, exts: Option<seq<Ext>>, signature: Bytes)

  predicate TbsFits(c: CRLSyntax) {
    && FitsAll(c.fields) && (forall e :: e in c.fields ==> e.tag != CONTEXT_0)
    && (c.exts.Some? ==> ExtsFit(c.exts.value) && |EncodeExts(c.exts.value)| + 12 < MAX)
  }

  function ExtsElem(xs: seq<Ext>): Elem
    requires ExtsFit(xs) && |EncodeExts(xs)| + 12 < MAX
  {
    Elem(CONTEXT_0, Encode(Elem(SEQUENCE, EncodeExts(xs))))
  }

  function EncodeTbs(c: CRLSyntax): Bytes
    requires TbsFits(c)
  {
    EncodeAll(c.fields) + if c.exts.Some? then Encode(ExtsElem(c.exts.value)) else []
  }

  predicate CRLFits(c: CRLSyntax) {
    TbsFits(c) && |EncodeTbs(c)| + 6 < MAX && |Encode(Elem(SEQUENCE, EncodeTbs(c))) + c.signature| + 6 < MAX
  }

  function EncodeCRL(c: CRLSyntax): Bytes
    requires CRLFits(c)
  {
    Encode(Elem(SEQUENCE, Encode(Elem(SEQUENCE, EncodeTbs(c))) + c.signature))
  }

  lemma {:induction false} ExtensionsSkip(fields: seq<Elem>, rest: Bytes, found: Option<Bytes>)
    requires FitsAll(fields) && forall e :: e in fields ==> e.tag != CONTEXT_0
    ensures Extensions(EncodeAll(fields) + rest, found) == Extensions(rest, found)
  {
    if fields == [] {
      assert EncodeAll(fields) + rest == rest;
    } else {
      FitsAfter(fields);
      EncodeTail(fields, rest);
      ExtensionsSkipOne(fields[0], EncodeAll(fields[1..]) + rest, found);
      ExtensionsSkip(fields[1..], rest, found);
    }
  }

  lemma FitsAfter(fields: seq<Elem>)
    requires fields != [] && FitsAll(fields)
    ensures Fits(fields[0]) && FitsAll(fields[1..]) && forall e :: e in fields[1..] ==> e in fields
  {
    assert fields[0] in fields;
  }

  lemma EncodeTail(fields: seq<Elem>, rest: Bytes)
    requires fields != [] && ShortAll(fields) && ShortAll(fields[1..]) && |fields[0].content| < MAX
    ensures EncodeAll(fields) + rest == Encode(fields[0]) + (EncodeAll(fields[1..]) + rest)
  {
    Associative(Encode(fields[0]), EncodeAll(fields[1..]), rest);
  }

  lemma Associative(a: Bytes, b: Bytes, c: Bytes)
    ensures a + b + c == a + (b + c)
  {
  }

  lemma ExtensionsSkipOne(e: Elem, rest: Bytes, found: Option<Bytes>)
    requires Fits(e) && e.tag != CONTEXT_0
    ensures Extensions(Encode(e) + rest, found) == Extensions(rest, found)
  {
    ReadEncoded(e, rest);
  }

  lemma ExtensionsOfTbs(c: CRLSyntax)
    requires TbsFits(c)
    ensures Extensions(EncodeTbs(c), None) == Some(if c.exts.Some? then Some(EncodeExts(c.exts.value)) else None)
  {
    match c.exts
    case None => ExtensionsSkip(c.fields, [], None);
    case Some(xs) =>
      ExtensionsSkip(c.fields, Encode(ExtsElem(xs)), None);
      ExtensionsOfElem(xs);
  }

  lemma ExtensionsOfElem(xs: seq<Ext>)
    requires ExtsFit(xs) && |EncodeExts(xs)| + 12 < MAX
    ensures Extensions(Encode(ExtsElem(xs)), None) == Some(Some(EncodeExts(xs)))
  {
    var inner := Elem(SEQUENCE, EncodeExts(xs));
    ReadEncoded(ExtsElem(xs), []);
    assert Encode(ExtsElem(xs)) + [] == Encode(ExtsElem(xs));
    ReadEncoded(inner, []);
    assert Encode(inner) + [] == Encode(inner);
  }

  /** What parseIDP reads from any DER CRL, whatever else the CRL holds and whatever follows it. */
  lemma ParseEncoded(c: CRLSyntax, trailing: Bytes)
    requires CRLFits(c)
    ensures Parse(EncodeCRL(c) + trailing) == if c.exts.Some? then IDPAmong(c.exts.value) else Ok(None)
  {
    ExtensionsOfTbs(c);
    ParseOfTbs(EncodeTbs(c), c.signature, trailing);
    if c.exts.Some? { FindIDPEncoded(c.exts.value); }
  }

  /** The parser gets to the tbsCertList. */
  lemma ParseOfTbs(tbs: Bytes, signature: Bytes, trailing: Bytes)
    requires |tbs| + 6 < MAX && |Encode(Elem(SEQUENCE, tbs)) + signature| + 6 < MAX
    ensures Parse(Encode(Elem(SEQUENCE, Encode(Elem(SEQUENCE, tbs)) + signature)) + trailing) ==
      match Extensions(tbs, None)
      case None => Err(())
      case Some(None) => Ok(None)
      case Some(Some(exts)) => FindIDP(exts)
  {
    ReadEncoded(Elem(SEQUENCE, Encode(Elem(SEQUENCE, tbs)) + signature), trailing);
    ReadEncoded(Elem(SEQUENCE, tbs), signature);
  }

  lemma {:induction false} IDPAfter(before: seq<Ext>, x: Ext, later: seq<Ext>)
    requires x.oid == OID_IDP && forall y :: y in before ==> y.oid != OID_IDP
    ensures IDPAmong(before + [x] + later) == ScopeIn(x.value)
  {
    var all := before + [x] + later;
    if before != [] {
      assert all[0] == before[0] && all[1..] == before[1..] + [x] + later;
      IDPAfter(before[1..], x, later);
    }
  }

  /**
   The round trip: for every extension value and every CRL around it, parsing
   the CRL's DER gives the scope of the extension.
   */
  lemma CRLRoundTrip(c: CRLSyntax, before: seq<Ext>, critical: Option<Bytes>, p: Point, later: seq<Ext>,
      trailing: Bytes)
    requires PointFits(p) && (forall y :: y in before ==> y.oid != OID_IDP)
    requires c.exts == Some(before + [Ext(OID_IDP, critical, EncodePoint(p))] + later) && CRLFits(c)
    ensures Parse(EncodeCRL(c) + trailing) == Ok(Some(Meaning(p)))
  {
    ParseEncoded(c, trailing);
    IDPAfter(before, Ext(OID_IDP, critical, EncodePoint(p)), later);
    ValueRoundTrip(p);
  }

  // ---------------------------------------------------------------- scope

  /** A CRL as ParseCRL gives it; hasIDP and isDelta come from the C library. */
  datatype CRLInfo = CRLInfo(
    issuer: string,
    issuerName: Bytes,
    aki: string,
    thisUpdate: Option<int>,
    nextUpdate: Option<int>,
    hasIDP: bool,
    isDelta: bool,
    der: Bytes)

  /** info.idp: left nil when parsing fails. */
  function IdpOf(crl: CRLInfo): Option<Scope> {
    if crl.hasIDP && Parse(crl.der).Ok? then Parse(crl.der).value else None
  }

  /** Section 6.3.3 (b) of RFC 5280: what the scope says of a certificate. */
  ghost predicate InScope(s: Scope, cdpURLs: seq<string>, isCA: bool) {
    && !s.someReasons && !s.indirect && !s.onlyAttr
    && !(s.onlyUser && isCA) && !(s.onlyCA && !isCA)
    && (s.hasDP ==> exists u :: u in s.uris && u in cdpURLs)
  }

  method ScopeCovers(s: Scope, cdpURLs: seq<string>, isCA: bool) returns (r: bool)
    ensures r <==> InScope(s, cdpURLs, isCA)
  {
    if s.someReasons || s.indirect || s.onlyAttr || (s.onlyUser && isCA) || (s.onlyCA && !isCA) { return false; }
    if !s.hasDP { return true; }
    for i := 0 to |s.uris|
      invariant forall k :: 0 <= k < i ==> s.uris[k] !in cdpURLs
    {
      if s.uris[i] in cdpURLs { return true; }
    }
    return false;
  }

  ghost predicate CoversCert(crl: CRLInfo, cert: CertInfo) {
    && crl.issuerName == cert.issuerName && !crl.isDelta
    && (crl.hasIDP ==> IdpOf(crl).Some? && InScope(IdpOf(crl).value, cert.cdpURLs, cert.isCA))
  }

  method Covers(crl: CRLInfo, cert: CertInfo) returns (r: bool)
    ensures r <==> CoversCert(crl, cert)
    ensures crl.hasIDP && (Parse(crl.der).Err? || Parse(crl.der).value.None?) ==> !r
  {
    if crl.issuerName != cert.issuerName || crl.isDelta { return false; }
    if crl.hasIDP {
      var idp := ParseIDP(crl.der);
      if idp.Err? || idp.value.None? { return false; }
      r := ScopeCovers(idp.value.value, cert.cdpURLs, cert.isCA);
      return;
    }
    return true;
  }

  /** On the DER of a CRL with the extension, Covers is the scope of that extension. */
  lemma CoversIsScope(c: CRLSyntax, before: seq<Ext>, critical: Option<Bytes>, p: Point, later: seq<Ext>,
      crl: CRLInfo, cert: CertInfo)
    requires PointFits(p) && (forall y :: y in before ==> y.oid != OID_IDP)
    requires c.exts == Some(before + [Ext(OID_IDP, critical, EncodePoint(p))] + later) && CRLFits(c)
    requires crl.der == EncodeCRL(c) && crl.hasIDP
    ensures CoversCert(crl, cert) <==>
      crl.issuerName == cert.issuerName && !crl.isDelta && InScope(Meaning(p), cert.cdpURLs, cert.isCA)
  {
    CRLRoundTrip(c, before, critical, p, later, []);
    assert EncodeCRL(c) + [] == EncodeCRL(c);
  }

  // ---------------------------------------------------------------- malformed fields

  /** The flag of the last field with the tag; false without one. */
  function LastFlag(es: seq<Elem>, tag: Byte): bool {
    if es == [] then false
    else if es[|es| - 1].tag == tag then Flag(es[|es| - 1].content)
    else LastFlag(es[..|es| - 1], tag)
  }

  ghost predicate HasField(es: seq<Elem>, tag: Byte) {
    exists e :: e in es && e.tag == tag
  }

  /** The URIs of all distributionPoint fields, in order. */
  function AllUris(es: seq<Elem>): seq<string> {
    if es == [] then [] else AllUris(es[..|es| - 1]) + UrisOf(es[|es| - 1])
  }

  function UrisOf(e: Elem): seq<string> {
    if e.tag != CONTEXT_0 || Read(e.content, CONTEXT_0).None? then [] else
    var names := Names(Read(e.content, CONTEXT_0).value.0);
    if names.Some? then names.value else []
  }

  /** The only field the parser refuses: a fullName whose names do not parse. */
  predicate BadNames(e: Elem) {
    e.tag == CONTEXT_0 && Read(e.content, CONTEXT_0).Some? && Names(Read(e.content, CONTEXT_0).value.0).None?
  }

  /** What a list of fields means, well-formed or not: of repeated flags the last counts. */
  ghost function FieldsMean(es: seq<Elem>): Scope {
    Scope(HasField(es, CONTEXT_0), AllUris(es), LastFlag(es, ONLY_USER), LastFlag(es, ONLY_CA), LastFlag(es, ONLY_ATTR),
      HasField(es, SOME_REASONS), LastFlag(es, INDIRECT))
  }

  lemma HasFieldAppend(es: seq<Elem>, e: Elem, tag: Byte)
    ensures HasField(es + [e], tag) <==> HasField(es, tag) || e.tag == tag
  {
    if HasField(es, tag) {
      var x :| x in es && x.tag == tag;
      assert x in es + [e];
    }
    assert e in es + [e];
  }

  lemma FoldStep(es: seq<Elem>, e: Elem)
    requires FoldFields(es, NOTHING) == Some(FieldsMean(es)) && !BadNames(e)
    ensures FoldFields(es + [e], NOTHING) == Some(FieldsMean(es + [e]))
  {
    var all, idp := es + [e], FieldsMean(es);
    FoldAppend(es, [e], NOTHING);
    assert [e][1..] == [];
    assert all[..|es|] == es;
    HasFieldAppend(es, e, CONTEXT_0);
    HasFieldAppend(es, e, SOME_REASONS);
    assert idp.uris + [] == idp.uris;
    assert FoldFields([e], idp) == Field(e, idp);
  }

  /** The parser refuses a field list exactly when a fullName is malformed; otherwise it reads what the fields mean. */
  lemma {:induction false} FoldMeans(es: seq<Elem>)
    ensures FoldFields(es, NOTHING) == if exists e :: e in es && BadNames(e) then None else Some(FieldsMean(es))
  {
    if es != [] {
      var init, last := es[..|es| - 1], es[|es| - 1];
      FoldMeans(init);
      assert es == init + [last];
      FoldAppend(init, [last], NOTHING);
      BadSplits(init, last);
      if FoldFields(init, NOTHING).Some? {
        if BadNames(last) { FoldBad(last, FieldsMean(init)); } else { FoldStep(init, last); }
      }
    }
  }

  lemma BadSplits(init: seq<Elem>, last: Elem)
    ensures (exists e :: e in init + [last] && BadNames(e)) <==>
      (exists e :: e in init && BadNames(e)) || BadNames(last)
  {
    assert last in init + [last];
    if e :| e in init && BadNames(e) { assert e in init + [last]; }
  }

  lemma FoldBad(e: Elem, idp: Scope)
    requires BadNames(e)
    ensures FoldFields([e], idp) == None
  {
  }

  /** Whatever parses as a field list is the encoding of one. */
  lemma {:induction false} FieldsAreEncoded(bytes: Bytes, idp: Scope) returns (es: seq<Elem>)
    requires Fields(bytes, idp).Some?
    ensures ShortAll(es) && EncodeAll(es) == bytes && FoldFields(es, idp) == Fields(bytes, idp)
    decreases |bytes|
  {
    if bytes == [] {
      es := [];
    } else {
      ReadIsEncoded(bytes);
      var (e, rest) := ReadAny(bytes).value;
      var more := FieldsAreEncoded(rest, Field(e, idp).value);
      es := [e] + more;
      assert es[1..] == more;
    }
  }

  /**
   Whatever bytes the extension holds, once they parse they are the encoding of
   a field list, perhaps with something after it, and mean what the list means.
   */
  lemma ValueMeans(value: Bytes) returns (es: seq<Elem>, trailing: Bytes)
    requires Value(value).Some?
    ensures ShortAll(es) && |EncodeAll(es)| < MAX && value == Encode(Elem(SEQUENCE, EncodeAll(es))) + trailing
    ensures (forall e :: e in es ==> !BadNames(e)) && Value(value) == Some(FieldsMean(es))
  {
    ReadIsEncoded(value);
    trailing := ReadAny(value).value.1;
    es := FieldsAreEncoded(Read(value, SEQUENCE).value.0, NOTHING);
    FoldMeans(es);
  }

  /** The fields themselves shut the certificate out. */
  ghost predicate ShutsOut(es: seq<Elem>, cdpURLs: seq<string>, isCA: bool) {
    || HasField(es, SOME_REASONS)
    || LastFlag(es, INDIRECT) || LastFlag(es, ONLY_ATTR)
    || (isCA && LastFlag(es, ONLY_USER)) || (!isCA && LastFlag(es, ONLY_CA))
    || (HasField(es, CONTEXT_0) && forall u :: u in AllUris(es) ==> u !in cdpURLs)
  }

  /**
   Malformed flags do not fail closed. For any field list, repeated and
   malformed fields included, the extension leaves a certificate out exactly
   when it does not parse (a malformed fullName) or a field shuts it out: for a
   flag, when the last field with its tag is a single non-zero octet.
   */
  lemma FlagFailsClosedIff(es: seq<Elem>, cdpURLs: seq<string>, isCA: bool)
    requires FitsAll(es) && |EncodeAll(es)| + 6 < MAX
    ensures
      var value := Value(Encode(Elem(SEQUENCE, EncodeAll(es))));
      (value.None? || !InScope(value.value, cdpURLs, isCA)) <==>
        (exists e :: e in es && BadNames(e)) || ShutsOut(es, cdpURLs, isCA)
  {
    var fields := EncodeAll(es);
    ReadEncoded(Elem(SEQUENCE, fields), []);
    assert Encode(Elem(SEQUENCE, fields)) + [] == Encode(Elem(SEQUENCE, fields));
    FieldsOfEncoded(es, NOTHING);
    FoldMeans(es);
  }

  /** The same of a whole CRL: which certificates it covers, whatever its extension's fields are. */
  lemma CoversIffNotShutOut(c: CRLSyntax, before: seq<Ext>, critical: Option<Bytes>, es: seq<Elem>, later: seq<Ext>,
      crl: CRLInfo, cert: CertInfo)
    requires FitsAll(es) && |EncodeAll(es)| + 6 < MAX && (forall y :: y in before ==> y.oid != OID_IDP)
    requires c.exts == Some(before + [Ext(OID_IDP, critical, Encode(Elem(SEQUENCE, EncodeAll(es))))] + later)
    requires CRLFits(c)
    requires crl.der == EncodeCRL(c) && crl.hasIDP
    ensures CoversCert(crl, cert) <==>
      && crl.issuerName == cert.issuerName && !crl.isDelta
      && !(exists e :: e in es && BadNames(e)) && !ShutsOut(es, cert.cdpURLs, cert.isCA)
  {
    var x := Ext(OID_IDP, critical, Encode(Elem(SEQUENCE, EncodeAll(es))));
    ParseEncoded(c, []);
    assert EncodeCRL(c) + [] == EncodeCRL(c);
    IDPAfter(before, x, later);
    FlagFailsClosedIff(es, cert.cdpURLs, cert.isCA);
  }

  /**
   Malformed and repeated flags that cover: onlyContainsUserCerts said and then
   unsaid covers a CA.
   */
  lemma UnsaidFlagCovers()
    ensures
      var value: Bytes := [SEQUENCE, 5, ONLY_USER, 1, 0xFF, ONLY_USER, 0];
      Value(value) == Some(NOTHING) && InScope(NOTHING, [], true)
  {
    var first, second: Bytes := [ONLY_USER, 1, 0xFF], [ONLY_USER, 0];
    ReadOne(SEQUENCE, first + second, []);
    assert [SEQUENCE, 5] + (first + second) + [] == [SEQUENCE, 5, ONLY_USER, 1, 0xFF, ONLY_USER, 0];
    ReadOne(ONLY_USER, [0xFF], second);
    assert [ONLY_USER, 1] + [0xFF] + second == first + second;
    ReadOne(ONLY_USER, [], []);
    assert [ONLY_USER, 0] + [] + [] == second;
    assert Fields(second, NOTHING.(onlyUser := true)) == Fields([], NOTHING);
    assert Fields(first + second, NOTHING) == Some(NOTHING);
  }

  /** Two octets of onlyContainsCACerts, indirectCRL or onlyContainsAttributeCerts cover an end entity. */
  lemma LongFlagCovers(tag: Byte)
    requires tag == ONLY_CA || tag == INDIRECT || tag == ONLY_ATTR
    ensures Value([SEQUENCE, 4, tag, 2, 0xFF, 0xFF]) == Some(NOTHING) && InScope(NOTHING, [], false)
  {
    var field: Bytes := [tag, 2, 0xFF, 0xFF];
    ReadOne(SEQUENCE, field, []);
    assert [SEQUENCE, 4] + field + [] == [SEQUENCE, 4, tag, 2, 0xFF, 0xFF];
    ReadOne(tag, [0xFF, 0xFF], []);
    assert [tag, 2] + [0xFF, 0xFF] + [] == field;
    assert Fields(field, NOTHING) == Fields([], NOTHING);
  }

  lemma ReadOne(tag: Byte, content: Bytes, rest: Bytes)
    requires tag % 32 != 31 && |content| < 128
    ensures ReadAny([tag, |content|] + content + rest) == Some((Elem(tag, content), rest))
  {
  }
}
