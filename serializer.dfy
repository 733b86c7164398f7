// The text the property structs and proprietary properties write
// (the `Display` the `#[vcard]` attribute of vcard_macro/src/lib.rs
// generates, and `ProprietaryProperty`'s `Display` in
// vcard/src/models/model.rs).
module Serializer {
  import opened Errors
  import opened Strings
  import opened Parameters
  import opened Model

  /** The `KEY=value` segments the `#[vcard]` `Display` writes for one
      field: one per TYPE item, SORT-AS quoted and ','-joined, VALUE by its
      registered name; the group and LABEL fields write none. */
  function FieldSegments(ps: Params, fd: Field): seq<string>
  {
    match fd
    case GroupField => []
    case LabelField => []
    case AltIdField => if ps.altid.Some? then ["ALTID=" + ps.altid.value] else []
    case LanguageField => if ps.language.Some? then ["LANGUAGE=" + ps.language.value] else []
    case ValueTypeField => if ps.valueType.Some? then ["VALUE=" + ValueTypeToken(ps.valueType.value)] else []
    case PrefField => if ps.pref.Some? then ["PREF=" + ShowNat(ps.pref.value)] else []
    case PidField => if ps.pid.Some? then ["PID=" + ShowPid(ps.pid.value)] else []
    case TypeField =>
      if ps.typeParam.Some?
      then seq(|ps.typeParam.value|, i requires 0 <= i < |ps.typeParam.value| => "TYPE=" + ps.typeParam.value[i])
      else []
    case MediaTypeField => if ps.mediatype.Some? then ["MEDIATYPE=" + ps.mediatype.value] else []
    case CalScaleField => if ps.calscale.Some? then ["CALSCALE=" + ps.calscale.value] else []
    case SortAsField => if ps.sortAs.Some? then ["SORT-AS=\"" + Join(",", ps.sortAs.value) + "\""] else []
    case GeoField => if ps.geo.Some? then ["GEO=" + ps.geo.value] else []
    case TzField => if ps.tz.Some? then ["TZ=" + ps.tz.value] else []
  }

  /** The segments of all fields, in the struct's declaration order. */
  function Segments(ps: Params, fs: seq<Field>): seq<string>
  {
    if fs == [] then [] else FieldSegments(ps, fs[0]) + Segments(ps, fs[1..])
  }

  /** Each segment after a ';'. */
  function Semicolons(segs: seq<string>): string
  {
    if segs == [] then [] else ";" + segs[0] + Semicolons(segs[1..])
  }

  /** The N and ADR positions: ','-joined items, ';'-joined positions. */
  function PositionsText(positions: seq<seq<string>>): string
  {
    Join(";", seq(|positions|, i requires 0 <= i < |positions| => Join(",", positions[i])))
  }

  /** The value text of a struct: ORG ';'-joined, CATEGORIES and NICKNAME
      ','-joined, GENDER's sex token (or nothing) then `;identity` when
      present, KIND by its registered name, CLIENTPIDMAP its URI only. */
  function ValueText(k: PropKind, v: PropValue): string
  {
    match v
    case Text(t) => t
    case Positions(positions) => PositionsText(positions)
    case Items(items) => Join(if k == ORG then ";" else ",", items)
    case GenderValue(sex, identity) =>
      (if sex.Some? then SexToken(sex.value) else "") + (if identity.Some? then ";" + identity.value else "")
    case KindOf(kv) => KindToken(kv)
    case PidMap(_, uri) => uri
  }

  /** The line a struct writes, without its CRLF: the group (when the
      struct has one), the upper-case struct name, the parameters, ':' and
      the value. */
  function PropLine(p: Prop): string
  {
    (if GroupField in Fields(p.kind) && p.group.Some? then p.group.value + "." else "")
    + DisplayName(p.kind) + Semicolons(Segments(p.params, Fields(p.kind))) + ":" + ValueText(p.kind, p.value)
  }

  /** `Display` of a property struct. */
  function ShowProp(p: Prop): string
  {
    PropLine(p) + "\r\n"
  }

  /** `Display` of `Version`. */
  function ShowVersion(v: VersionValue): string
  {
    "VERSION:" + VersionToken(v) + "\r\n"
  }

  /** Each parameter's `Display` after a ';'. */
  function ParameterTexts(qs: seq<Parameter>): string
  {
    if qs == [] then [] else ";" + ShowParameter(qs[0]) + ParameterTexts(qs[1..])
  }

  /** The line a proprietary property writes, without its CRLF. */
  function ProprietaryLine(pp: ProprietaryProperty): string
  {
    (if pp.group.Some? then pp.group.value + "." else "") + pp.name + ParameterTexts(pp.parameters) + ":" + pp.value
  }

  /** `Display` of `ProprietaryProperty`. */
  function ShowProprietary(pp: ProprietaryProperty): string
  {
    ProprietaryLine(pp) + "\r\n"
  }

  /** Every segment after a ';' is the segments joined by ';' after one
      leading ';'. */
  lemma {:induction false} SemicolonsJoin(segs: seq<string>)
    requires segs != []
    ensures Semicolons(segs) == ";" + Join(";", segs)
  {
    if |segs| == 1 {
      assert Semicolons(segs[1..]) == [];
      assert ";" + segs[0] + [] == ";" + segs[0];
    } else {
      SemicolonsJoin(segs[1..]);
      ConcatAssoc(";" + segs[0], ";", Join(";", segs[1..]));
      ConcatAssoc(";", segs[0], ";" + Join(";", segs[1..]));
    }
  }

  lemma {:induction false} SemicolonsAppend(a: seq<string>, b: seq<string>)
    ensures Semicolons(a + b) == Semicolons(a) + Semicolons(b)
    decreases |a|
  {
    if a == [] {
      assert a + b == b;
    } else {
      assert (a + b)[0] == a[0] && (a + b)[1..] == a[1..] + b;
      SemicolonsAppend(a[1..], b);
      ConcatAssoc(";" + a[0], Semicolons(a[1..]), Semicolons(b));
    }
  }

  /** A struct writes its name and every parameter it holds, ';'-separated,
      in its declaration order: the text between the name and the ':' is
      the segments of its fields, one after another. */
  lemma {:induction false} ParamsTextByField(ps: Params, fs: seq<Field>)
    ensures Semicolons(Segments(ps, fs)) == if fs == [] then "" else Semicolons(FieldSegments(ps, fs[0])) + Semicolons(Segments(ps, fs[1..]))
  {
    if fs != [] {
      SemicolonsAppend(FieldSegments(ps, fs[0]), Segments(ps, fs[1..]));
    }
  }

  /** The default N writes five empty positions. */
  lemma DefaultNDisplay()
    ensures ShowProp(Prop(N, None, NoParams, Positions([[], [], [], [], []]))) == "N" + ":" + ";;;;" + "\r\n"
  {
    var fs := Fields(N);
    var none: seq<string> := [];
    assert fs == [AltIdField, LanguageField, SortAsField, GroupField];
    assert fs[1..][1..][1..][1..] == [];
    assert Segments(NoParams, fs) == none;
    FiveEmptyPositions();
  }

  lemma FiveEmptyPositions()
    ensures PositionsText([[], [], [], [], []]) == ";;;;"
  {
    var e: string := [];
    var joined := seq(5, i requires 0 <= i < 5 => Join(",", [[], [], [], [], []][i]));
    assert joined == [e, e, e, e, e];
    assert Join(";", [e, e]) == ";";
    assert Join(";", [e, e, e]) == e + ";" + ";";
    assert Join(";", [e, e, e, e]) == e + ";" + ";;";
    assert Join(";", [e, e, e, e, e]) == e + ";" + ";;;";
  }

  lemma SemicolonsSingle(seg: string)
    ensures Semicolons([seg]) == ";" + seg
  {
    var none: seq<string> := [];
    assert [seg][1..] == none;
    assert Semicolons(none) == [];
  }

  /** The fields that hold nothing write no segment. */
  lemma {:induction false} SegmentsOfEmptyFields(ps: Params, fs: seq<Field>)
    requires forall i :: 0 <= i < |fs| ==> FieldSegments(ps, fs[i]) == []
    ensures Segments(ps, fs) == []
  {
    if fs != [] {
      SegmentsOfEmptyFields(ps, fs[1..]);
    }
  }

  /** SORT-AS is written once, quoted and ','-joined (`SORT-AS="foo,bar"`
      for `["foo", "bar"]`); the five empty positions follow after the ':'. */
  lemma NSortAsDisplay(sortAs: seq<string>)
    ensures ShowProp(Prop(N, None, NoParams.(sortAs := Some(sortAs)), Positions([[], [], [], [], []])))
         == "N" + ";" + "SORT-AS=\"" + Join(",", sortAs) + "\"" + ":" + ";;;;" + "\r\n"
  {
    var p := Prop(N, None, NoParams.(sortAs := Some(sortAs)), Positions([[], [], [], [], []]));
    var j := Join(",", sortAs);
    var seg := "SORT-AS=\"" + j + "\"";
    NSortAsParams(sortAs);
    FiveEmptyPositions();
    assert PropLine(p) == "N" + (";" + seg) + ":" + ";;;;";
    assert "N" + (";" + seg) == "N" + ";" + "SORT-AS=\"" + j + "\"" by {
      ConcatAssoc(";", "SORT-AS=\"", j);
      ConcatAssoc(";", "SORT-AS=\"" + j, "\"");
      ConcatAssoc("N", ";", seg);
      ConcatAssoc("N" + ";", "SORT-AS=\"" + j, "\"");
      ConcatAssoc("N" + ";", "SORT-AS=\"", j);
    }
  }

  /** Of the fields N writes, only SORT-AS is set. */
  lemma NSortAsParams(sortAs: seq<string>)
    ensures Semicolons(Segments(NoParams.(sortAs := Some(sortAs)), Fields(N)))
         == ";" + ("SORT-AS=\"" + Join(",", sortAs) + "\"")
  {
    var ps := NoParams.(sortAs := Some(sortAs));
    var fs := Fields(N);
    NFields();
    assert FieldSegments(ps, AltIdField) == [];
    assert FieldSegments(ps, LanguageField) == [];
    assert FieldSegments(ps, GroupField) == [];
    assert forall j :: 0 <= j < |fs| && j != 2 ==> fs[j] in {AltIdField, LanguageField, GroupField};
    SegmentsOfOneField(ps, fs, 2);
    SemicolonsSingle("SORT-AS=\"" + Join(",", sortAs) + "\"");
  }

  lemma NFields()
    ensures Fields(N) == [AltIdField, LanguageField, SortAsField, GroupField]
  {
  }

  /** When every other field is empty, the struct writes that one field's
      segments. */
  lemma SegmentsOfOneField(ps: Params, fs: seq<Field>, i: nat)
    requires i < |fs|
    requires forall j :: 0 <= j < |fs| && j != i ==> FieldSegments(ps, fs[j]) == []
    ensures Segments(ps, fs) == FieldSegments(ps, fs[i])
  {
    SegmentsSplit(ps, fs, i);
    SegmentsOfEmptyFields(ps, fs[..i]);
    var after := fs[i..];
    assert after[0] == fs[i] && after[1..] == fs[i + 1..];
    SegmentsOfEmptyFields(ps, fs[i + 1..]);
    assert FieldSegments(ps, fs[i]) + [] == FieldSegments(ps, fs[i]);
  }

  lemma {:induction false} SegmentsSplit(ps: Params, fs: seq<Field>, n: nat)
    requires n <= |fs|
    ensures Segments(ps, fs) == Segments(ps, fs[..n]) + Segments(ps, fs[n..])
  {
    if n > 0 {
      SegmentsSplit(ps, fs[1..], n - 1);
      assert fs[1..][..n - 1] == fs[..n][1..];
      assert fs[1..][n - 1..] == fs[n..];
      ConcatAssoc(FieldSegments(ps, fs[0]), Segments(ps, fs[1..][..n - 1]), Segments(ps, fs[n..]));
    } else {
      assert fs[..0] == [];
      assert fs[0..] == fs;
    }
  }

  /** An EMAIL with a group and an ALTID, `foo.EMAIL;ALTID=asdf:mail@example.com`
      for the group `foo`. */
  lemma EmailDisplay(group: string, altid: string, address: string)
    ensures ShowProp(Prop(EMAIL, Some(group), NoParams.(altid := Some(altid)), PropValue.Text(address)))
         == group + "." + "EMAIL" + ";" + "ALTID=" + altid + ":" + address + "\r\n"
  {
    var ps := NoParams.(altid := Some(altid));
    var p := Prop(EMAIL, Some(group), ps, PropValue.Text(address));
    var fs := Fields(EMAIL);
    var none: seq<string> := [];
    var seg := "ALTID=" + altid;
    assert Segments(ps, fs) == [seg] by {
      assert fs == [GroupField, AltIdField, PidField, PrefField, ValueTypeField, TypeField];
      SegmentsOfEmptyFields(ps, fs[2..]);
      assert fs[1..][1..] == fs[2..];
      assert Segments(ps, fs[1..]) == [seg] + none;
      assert Segments(ps, fs) == none + [seg];
    }
    SemicolonsSingle(seg);
    var params := Semicolons(Segments(ps, fs));
    assert params == ";" + seg;
    assert PropLine(p) == group + "." + "EMAIL" + params + ":" + address;
    assert group + "." + "EMAIL" + params == group + "." + "EMAIL" + ";" + "ALTID=" + altid by {
      ConcatAssoc(";", "ALTID=", altid);
      ConcatAssoc(group + "." + "EMAIL", ";", seg);
      ConcatAssoc(group + "." + "EMAIL" + ";", "ALTID=", altid);
    }
  }
}
