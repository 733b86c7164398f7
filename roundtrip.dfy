// Reading back what is written: the value grammars against the value
// texts the property structs write, and whole property lines against
// `Property::from_str` (vcard/src/models/property.rs and the `#[vcard]`
// Display of vcard_macro/src/lib.rs). Nothing is escaped on the way out,
// so the round trip holds for the properties whose texts need no escape.
module RoundTrip {
  import opened Errors
  import opened Strings
  import opened Parameters
  import opened Model
  import opened Properties
  import opened Serializer

  // ---------------------------------------------------------------------
  // Values

  /** An item that survives being joined and split again on `sep`: it
      holds no `sep`, no '\' and no line feed. */
  predicate Plain(x: string, sep: char)
  {
    Free(x, sep) && Free(x, '\\') && Free(x, '\n')
  }

  predicate AllPlain(xs: seq<string>, sep: char)
  {
    forall i :: 0 <= i < |xs| ==> Plain(xs[i], sep)
  }

  /** The values whose written text reads back as themselves: a text
      without line feed; positions and ORG and CATEGORIES items that are
      non-empty and hold neither separator; at least one NICKNAME item; a
      GENDER with its identity; a registered KIND. A CLIENTPIDMAP never
      reads back (its name is refused). */
  predicate PrintableValue(k: PropKind, v: PropValue)
  {
    match v
    case Text(t) => Free(t, '\n')
    case Positions(positions) =>
      forall i, j :: 0 <= i < |positions| && 0 <= j < |positions[i]| ==>
        positions[i][j] != [] && Plain(positions[i][j], ',') && Free(positions[i][j], ';')
    case Items(items) =>
      if k == NICKNAME then |items| >= 1 && AllPlain(items, ',')
      else (forall i :: 0 <= i < |items| ==> items[i] != []) && AllPlain(items, if k == ORG then ';' else ',')
    case GenderValue(_, identity) => identity.Some? && Free(identity.value, '\n')
    case KindOf(kv) => !kv.Proprietary?
    case PidMap(_, _) => false
  }

  /** An item list read back from its join: split at `sep`, then (when
      `dropEmpty`) without empty items. */
  lemma ItemsRoundTrip(items: seq<string>, sep: char, dropEmpty: bool)
    requires sep == ',' || sep == ';'
    requires AllPlain(items, sep)
    requires dropEmpty ==> forall i :: 0 <= i < |items| ==> items[i] != []
    requires !dropEmpty ==> |items| >= 1
    ensures var pieces := EscapedPieces(Join([sep], items), sep);
            (if dropEmpty then NonEmpty(pieces) else pieces) == items
  {
    if items == [] {
      var e: string := [];
      assert Join([sep], items) == e;
      assert EscapedPieces(e, sep) == [e];
      assert NonEmpty([e]) == [];
    } else {
      assert AllFree(items, sep) && AllFree(items, '\\');
      EscapedSplitJoin(items, sep);
    }
  }

  /** N and ADR positions are read back from the text written for them. */
  lemma PositionsRoundTrip(positions: seq<seq<string>>, n: nat)
    requires |positions| == n
    requires PrintableValue(N, Positions(positions))
    ensures PositionsOf(PositionsText(positions), n) == positions
  {
    var joined := seq(|positions|, i requires 0 <= i < |positions| => Join(",", positions[i]));
    assert PositionsText(positions) == Join([';'], joined);
    if n > 0 {
      forall i | 0 <= i < |joined|
        ensures Free(joined[i], ';') && Free(joined[i], '\\')
      {
        assert AllFree(positions[i], ';') && AllFree(positions[i], '\\');
        JoinFree(",", positions[i], ';');
        JoinFree(",", positions[i], '\\');
      }
      assert AllFree(joined, ';') && AllFree(joined, '\\');
      EscapedSplitJoin(joined, ';');
      forall i | 0 <= i < n
        ensures NonEmpty(EscapedPieces(joined[i], ',')) == positions[i]
      {
        ItemsRoundTrip(positions[i], ',', true);
      }
    }
  }

  /** GENDER with its identity is read back: the sex token (or nothing),
      then `;identity`. */
  lemma GenderRoundTrip(sex: Option<Sex>, identity: string)
    ensures GenderOf(ValueText(GENDER, GenderValue(sex, Some(identity)))) == Ok(GenderValue(sex, Some(identity)))
  {
    var token := if sex.Some? then SexToken(sex.value) else "";
    assert Free(token, ';') by {
      if sex.Some? { SexTokenPlain(sex.value); }
    }
    var text := token + [';'] + identity;
    assert ValueText(GENDER, GenderValue(sex, Some(identity))) == text;
    FindAfterFree(token, ';', identity);
    assert text[..|token|] == token && text[|token| + 1..] == identity;
    if sex.Some? {
      SexRoundTrip(sex.value);
    }
  }

  lemma SexTokenPlain(x: Sex)
    ensures Free(SexToken(x), ';') && |SexToken(x)| == 1
  {
  }

  /** A GENDER without identity is written without ';', and that text is
      refused when read. */
  lemma GenderWithoutIdentityRefused(sex: Option<Sex>)
    ensures ValueOf(GENDER, ValueText(GENDER, GenderValue(sex, None)))
         == Err(InvalidSyntax("gender property must include a semicolon (;)", "Gender"))
  {
    if sex.Some? {
      SexTokenPlain(sex.value);
    }
  }

  /** An extension KIND is written as `Proprietary`, and read back as the
      extension kind of that name. */
  lemma ProprietaryKindRenamed(name: string)
    ensures ValueOf(KIND, ValueText(KIND, KindOf(KindValue.Proprietary(name))))
         == Ok(KindOf(KindValue.Proprietary("Proprietary")))
  {
    KindValueRoundTrip(KindValue.Proprietary(name));
  }

  /** An empty NICKNAME list is written as an empty value, which reads back
      as one empty nickname. */
  lemma EmptyNicknameGainsItem()
    ensures ValueOf(NICKNAME, ValueText(NICKNAME, Items([]))) == Ok(Items([""]))
  {
    var e: string := [];
    assert ValueText(NICKNAME, Items([])) == e;
    assert EscapedPieces(e, ',') == [e];
  }

  /** Every printable value of a registered property is read back by that
      property's grammar from the text its struct writes. */
  lemma ValueRoundTrip(k: PropKind, v: PropValue)
    requires ValueShaped(k, v) && PrintableValue(k, v)
    ensures ValueOf(k, ValueText(k, v)) == Ok(v)
  {
    match k
    case N => PositionsRoundTrip(v.positions, 5);
    case ADR => PositionsRoundTrip(v.positions, 7);
    case NICKNAME =>
      assert ValueText(k, v) == Join([','], v.items);
      ItemsRoundTrip(v.items, ',', false);
    case CATEGORIES =>
      assert ValueText(k, v) == Join([','], v.items);
      ItemsRoundTrip(v.items, ',', true);
    case ORG =>
      assert ValueText(k, v) == Join([';'], v.items);
      ItemsRoundTrip(v.items, ';', true);
    case GENDER => GenderRoundTrip(v.sex, v.identity.value);
    case KIND => KindValueRoundTrip(v.kindValue);
    case CLIENTPIDMAP =>
    case _ =>
  }

  // ---------------------------------------------------------------------
  // Parameters

  /** The parameters the segments written for one field stand for: one
      single-item TYPE per item, the field's own parameter otherwise; the
      group and LABEL fields write none. */
  function FieldParams(ps: Params, fd: Field): seq<Parameter>
  {
    match fd
    case GroupField => []
    case LabelField => []
    case TypeField => if ps.typeParam.Some? then TypeParams(ps.typeParam.value) else []
    case _ => if FieldValue(ps, fd).Some? then [FieldValue(ps, fd).value] else []
  }

  function TypeParams(types: seq<string>): (r: seq<Parameter>)
    ensures |r| == |types|
  {
    seq(|types|, i requires 0 <= i < |types| => Type([types[i]]))
  }

  /** The parameters written for the fields `fs`, in order. */
  function ParamList(ps: Params, fs: seq<Field>): seq<Parameter>
  {
    if fs == [] then [] else FieldParams(ps, fs[0]) + ParamList(ps, fs[1..])
  }

  /** Each parameter's `Display`. */
  function Shown(qs: seq<Parameter>): (r: seq<string>)
    ensures |r| == |qs|
  {
    seq(|qs|, i requires 0 <= i < |qs| => ShowParameter(qs[i]))
  }

  /** Parameter text that a segment can carry: no ';', ':' or '\'. */
  predicate SegmentText(x: string)
  {
    Free(x, ';') && Free(x, ':') && Free(x, '\\')
  }

  /** The parameters whose segments read back as themselves: no LABEL and
      no SORT-AS (neither is written in a form that reads back), no
      extension VALUE type, a non-empty TYPE list without ',' in its items,
      and texts without ';', ':' or '\'. */
  predicate PrintableParams(ps: Params)
  {
    && ps.labelText.None? && ps.sortAs.None?
    && (ps.altid.Some? ==> SegmentText(ps.altid.value))
    && (ps.language.Some? ==> SegmentText(ps.language.value))
    && (ps.mediatype.Some? ==> SegmentText(ps.mediatype.value))
    && (ps.calscale.Some? ==> SegmentText(ps.calscale.value))
    && (ps.geo.Some? ==> SegmentText(ps.geo.value))
    && (ps.tz.Some? ==> SegmentText(ps.tz.value))
    && (ps.valueType.Some? ==> !ps.valueType.value.Proprietary?)
    && (ps.typeParam.Some? ==>
          && |ps.typeParam.value| >= 1
          && forall i :: 0 <= i < |ps.typeParam.value| ==>
               SegmentText(ps.typeParam.value[i]) && Free(ps.typeParam.value[i], ','))
  }

  lemma KeyedSegment(key: string, v: string)
    ensures key + "=" + v == key + ("=" + v)
  {
    ConcatAssoc(key, "=", v);
  }

  /** The segments the struct writes for one field are the `Display` of
      the parameters that field stands for. */
  lemma FieldSegmentsShown(ps: Params, fd: Field)
    requires PrintableParams(ps)
    ensures FieldSegments(ps, fd) == Shown(FieldParams(ps, fd))
  {
    match fd {
      case TypeField =>
        if ps.typeParam.Some? {
          var ts := ps.typeParam.value;
          forall i | 0 <= i < |ts|
            ensures FieldSegments(ps, fd)[i] == Shown(FieldParams(ps, fd))[i]
          {
            assert ShowParameter(Type([ts[i]])) == "TYPE" + "=" + Join(",", [ts[i]]);
            assert "TYPE" + "=" == "TYPE=";
          }
        }
      case ValueTypeField =>
        if ps.valueType.Some? {
          assert "VALUE" + "=" == "VALUE=";
        }
      case AltIdField => assert "ALTID" + "=" == "ALTID=";
      case LanguageField => assert "LANGUAGE" + "=" == "LANGUAGE=";
      case PrefField => assert "PREF" + "=" == "PREF=";
      case PidField => assert "PID" + "=" == "PID=";
      case MediaTypeField => assert "MEDIATYPE" + "=" == "MEDIATYPE=";
      case CalScaleField => assert "CALSCALE" + "=" == "CALSCALE=";
      case GeoField => assert "GEO" + "=" == "GEO=";
      case TzField => assert "TZ" + "=" == "TZ=";
      case _ =>
    }
  }

  lemma {:induction false} SegmentsShown(ps: Params, fs: seq<Field>)
    requires PrintableParams(ps)
    ensures Segments(ps, fs) == Shown(ParamList(ps, fs))
  {
    if fs != [] {
      FieldSegmentsShown(ps, fs[0]);
      SegmentsShown(ps, fs[1..]);
      ShownAppend(FieldParams(ps, fs[0]), ParamList(ps, fs[1..]));
    }
  }

  lemma ShownAppend(a: seq<Parameter>, b: seq<Parameter>)
    ensures Shown(a + b) == Shown(a) + Shown(b)
  {
    assert forall i :: 0 <= i < |a + b| ==> (a + b)[i] == if i < |a| then a[i] else b[i - |a|];
  }

  /** Each written parameter is read back, in order. */
  lemma {:induction false} ParseShown(qs: seq<Parameter>)
    requires forall i :: 0 <= i < |qs| ==> Rereadable(qs[i])
    ensures ParseEach(Shown(qs)) == Ok(qs)
    decreases |qs|
  {
    if qs != [] {
      var segs := Shown(qs);
      ShownCons(qs);
      ParameterRoundTrip(qs[0]);
      ParseShown(qs[1..]);
      ParseEachCons(segs);
      assert [qs[0]] + qs[1..] == qs;
    }
  }

  lemma ShownCons(qs: seq<Parameter>)
    requires |qs| >= 1
    ensures Shown(qs)[0] == ShowParameter(qs[0]) && Shown(qs)[1..] == Shown(qs[1..])
  {
  }

  /** The parameters a printable struct writes can all be read back. */
  lemma ParamListRereadable(ps: Params, fs: seq<Field>)
    requires PrintableParams(ps)
    ensures forall i :: 0 <= i < |ParamList(ps, fs)| ==> Rereadable(ParamList(ps, fs)[i])
  {
    forall fd: Field, i | 0 <= i < |FieldParams(ps, fd)|
      ensures Rereadable(FieldParams(ps, fd)[i])
    {
      if fd == TypeField {
        var t := ps.typeParam.value[i];
        assert FieldParams(ps, fd)[i] == Type([t]);
        assert AllFree([t], ',');
      }
    }
    ParamListAll(ps, fs, Rereadable);
  }

  /** A property of every parameter any field writes holds of every
      parameter in the list. */
  lemma {:induction false} ParamListAll(ps: Params, fs: seq<Field>, P: Parameter -> bool)
    requires forall fd: Field, j :: 0 <= j < |FieldParams(ps, fd)| ==> P(FieldParams(ps, fd)[j])
    ensures forall i :: 0 <= i < |ParamList(ps, fs)| ==> P(ParamList(ps, fs)[i])
  {
    if fs != [] {
      ParamListAll(ps, fs[1..], P);
      var a := FieldParams(ps, fs[0]);
      var b := ParamList(ps, fs[1..]);
      assert ParamList(ps, fs) == a + b;
      forall i | 0 <= i < |a + b|
        ensures P((a + b)[i])
      {
        if i < |a| {
          assert (a + b)[i] == a[i];
        } else {
          assert (a + b)[i] == b[i - |a|];
        }
      }
    }
  }

  /** The text a keyed parameter writes holds no ';', ':' or '\' when its
      value holds none. */
  lemma KeyedSegmentText(key: string, v: string)
    requires SegmentText(key) && SegmentText(v)
    ensures SegmentText(key + "=" + v) && |key + "=" + v| >= 1
  {
  }

  /** The keys the serializer writes hold no ';', ':' or '\\'. */
  lemma KeySafe(q: Parameter)
    ensures SegmentText(ParameterKey(q))
  {
    var key := ParameterKey(q);
    forall i | 0 <= i < |key|
      ensures key[i] != ';' && key[i] != ':' && key[i] != '\\'
    {
      assert 'A' <= key[i] <= 'Z' || key[i] == '-';
    }
  }

  /** The value text of a parameter a printable struct writes holds no
      ';', ':' or '\\'. */
  lemma ValueSafe(q: Parameter)
    requires q.Value? ==> !q.valueType.Proprietary?
    requires q.Type? ==> |q.types| == 1 && SegmentText(q.types[0])
    requires (q.Language? || q.AltId? || q.MediaType? || q.CalScale? || q.Geo? || q.TimeZone?)
             ==> SegmentText(Parameters.ParameterText(q))
    requires !q.Label? && !q.SortAs? && !q.Proprietary?
    ensures SegmentText(Parameters.ParameterText(q))
  {
    match q {
      case Pref(n) =>
        DigitsFreeOf(n, ';'); DigitsFreeOf(n, ':'); DigitsFreeOf(n, '\\');
      case Pid(pid) =>
        DigitsFreeOf(pid.firstDigit, ';'); DigitsFreeOf(pid.firstDigit, ':'); DigitsFreeOf(pid.firstDigit, '\\');
        if pid.secondDigit.Some? {
          var d := pid.secondDigit.value;
          DigitsFreeOf(d, ';'); DigitsFreeOf(d, ':'); DigitsFreeOf(d, '\\');
        }
      case Type(ts) => assert Join(",", ts) == ts[0];
      case Value(t) => TokenSafe(t);
      case _ =>
    }
  }

  lemma TokenSafe(t: ValueDataType)
    requires !t.Proprietary?
    ensures SegmentText(ValueTypeToken(t))
  {
    var x := ValueTypeToken(t);
    forall i | 0 <= i < |x|
      ensures x[i] != ';' && x[i] != ':' && x[i] != '\\'
    {
      assert 'a' <= x[i] <= 'z' || x[i] == '-';
    }
  }

  /** Every segment a printable struct writes is non-empty and holds no
      ';', ':' or '\\'. */
  lemma ShownSafe(q: Parameter)
    requires q.Value? ==> !q.valueType.Proprietary?
    requires q.Type? ==> |q.types| == 1 && SegmentText(q.types[0])
    requires (q.Language? || q.AltId? || q.MediaType? || q.CalScale? || q.Geo? || q.TimeZone?)
             ==> SegmentText(Parameters.ParameterText(q))
    requires !q.Label? && !q.SortAs? && !q.Proprietary?
    ensures |ShowParameter(q)| >= 1 && SegmentText(ShowParameter(q))
  {
    KeySafe(q);
    ValueSafe(q);
    KeyedSegmentText(ParameterKey(q), Parameters.ParameterText(q));
  }

  lemma SegmentsSafe(ps: Params, fs: seq<Field>)
    requires PrintableParams(ps)
    ensures forall i :: 0 <= i < |Shown(ParamList(ps, fs))| ==>
              |Shown(ParamList(ps, fs))[i]| >= 1 && SegmentText(Shown(ParamList(ps, fs))[i])
  {
    forall fd: Field, j | 0 <= j < |FieldParams(ps, fd)|
      ensures |ShowParameter(FieldParams(ps, fd)[j])| >= 1 && SegmentText(ShowParameter(FieldParams(ps, fd)[j]))
    {
      var q := FieldParams(ps, fd)[j];
      if fd == TypeField {
        assert q == Type([ps.typeParam.value[j]]);
      }
      ShownSafe(q);
    }
    ParamListAll(ps, fs, q => |ShowParameter(q)| >= 1 && SegmentText(ShowParameter(q)));
  }

  /** The last parameter filling a field, in a concatenation: from the
      second part when it has one. */
  lemma {:induction false} LastFillingAppend(a: seq<Parameter>, b: seq<Parameter>, fd: Field)
    ensures LastFilling(a + b, fd) == if LastFilling(b, fd).Some? then LastFilling(b, fd) else LastFilling(a, fd)
    decreases |b|
  {
    if b == [] {
      assert a + b == a;
    } else {
      var c := a + b;
      assert c[|c| - 1] == b[|b| - 1];
      assert c[..|c| - 1] == a + b[..|b| - 1];
      LastFillingAppend(a, b[..|b| - 1], fd);
    }
  }

  lemma {:induction false} TypesInAppend(a: seq<Parameter>, b: seq<Parameter>)
    ensures TypesIn(a + b) == TypesIn(a) + TypesIn(b)
    decreases |b|
  {
    if b == [] {
      assert a + b == a;
    } else {
      var c := a + b;
      var last := b[|b| - 1];
      assert c[|c| - 1] == last;
      assert c[..|c| - 1] == a + b[..|b| - 1];
      TypesInAppend(a, b[..|b| - 1]);
      ConcatAssoc(TypesIn(a), TypesIn(b[..|b| - 1]), if last.Type? then last.types else []);
    }
  }

  /** One single-item TYPE per item gives back the items. */
  lemma {:induction false} TypesInTypeParams(ts: seq<string>)
    ensures TypesIn(TypeParams(ts)) == ts
    decreases |ts|
  {
    if ts != [] {
      var init := ts[..|ts| - 1];
      assert TypeParams(ts)[..|ts| - 1] == TypeParams(init);
      TypesInTypeParams(init);
      assert init + [ts[|ts| - 1]] == ts;
    }
  }

  lemma TypeParamsFill(ts: seq<string>, fd: Field)
    requires |ts| >= 1
    ensures fd != TypeField ==> LastFilling(TypeParams(ts), fd) == None
    ensures LastFilling(TypeParams(ts), TypeField).Some?
    ensures TypesIn(TypeParams(ts)) == ts
  {
    var qs := TypeParams(ts);
    TypesInTypeParams(ts);
    assert FieldOf(qs[|qs| - 1]) == Some(TypeField);
    if fd != TypeField {
      assert forall i :: 0 <= i < |qs| ==> FieldOf(qs[i]) == Some(TypeField);
    }
  }

  /** The parameters one field writes fill that field and no other. */
  lemma FieldParamsFill(ps: Params, fw: Field, fd: Field)
    requires ps.labelText.None?
    requires ps.typeParam.Some? ==> |ps.typeParam.value| >= 1
    ensures fd != TypeField ==>
              LastFilling(FieldParams(ps, fw), fd) == if fw == fd then FieldValue(ps, fd) else None
    ensures LastFilling(FieldParams(ps, fw), TypeField).Some? <==> fw == TypeField && ps.typeParam.Some?
    ensures TypesIn(FieldParams(ps, fw)) == if fw == TypeField && ps.typeParam.Some? then ps.typeParam.value else []
  {
    var qs := FieldParams(ps, fw);
    if fw == TypeField && ps.typeParam.Some? {
      TypeParamsFill(ps.typeParam.value, fd);
    } else if |qs| == 1 {
      assert qs[..0] == [];
    }
  }

  /** The parameters a struct writes for the fields `fs` fill exactly the
      fields of `fs` the struct holds, a single-valued one with its
      content. */
  lemma {:induction false} ParamListFill(ps: Params, fs: seq<Field>, fd: Field)
    requires ps.labelText.None?
    requires ps.typeParam.Some? ==> |ps.typeParam.value| >= 1
    ensures fd != TypeField ==>
              LastFilling(ParamList(ps, fs), fd) == if fd in fs then FieldValue(ps, fd) else None
    ensures LastFilling(ParamList(ps, fs), TypeField).Some? <==> TypeField in fs && ps.typeParam.Some?
  {
    if fs != [] {
      ParamListFill(ps, fs[1..], fd);
      ParamListFill(ps, fs[1..], TypeField);
      FieldParamsFill(ps, fs[0], fd);
      FieldParamsFill(ps, fs[0], TypeField);
      LastFillingAppend(FieldParams(ps, fs[0]), ParamList(ps, fs[1..]), fd);
      LastFillingAppend(FieldParams(ps, fs[0]), ParamList(ps, fs[1..]), TypeField);
      assert fd in fs <==> fd == fs[0] || fd in fs[1..];
      assert TypeField in fs <==> TypeField == fs[0] || TypeField in fs[1..];
    }
  }

  /** No field is listed twice. */
  predicate Distinct(fs: seq<Field>)
  {
    forall i, j :: 0 <= i < j < |fs| ==> fs[i] != fs[j]
  }

  /** The TYPE items a struct writes, gathered again: its own list when it
      has a TYPE field. */
  lemma {:induction false} ParamListTypes(ps: Params, fs: seq<Field>)
    requires ps.labelText.None?
    requires ps.typeParam.Some? ==> |ps.typeParam.value| >= 1
    requires Distinct(fs)
    ensures TypesIn(ParamList(ps, fs)) == if TypeField in fs && ps.typeParam.Some? then ps.typeParam.value else []
  {
    if fs != [] {
      DistinctTail(fs);
      ParamListTypes(ps, fs[1..]);
      FieldParamsFill(ps, fs[0], TypeField);
      TypesInAppend(FieldParams(ps, fs[0]), ParamList(ps, fs[1..]));
      assert TypeField in fs <==> TypeField == fs[0] || TypeField in fs[1..];
    }
  }

  lemma DistinctTail(fs: seq<Field>)
    requires Distinct(fs) && fs != []
    ensures Distinct(fs[1..]) && fs[0] !in fs[1..]
  {
    forall i, j | 0 <= i < j < |fs| - 1
      ensures fs[1..][i] != fs[1..][j]
    {
      assert fs[1..][i] == fs[i + 1] && fs[1..][j] == fs[j + 1];
    }
    forall j | 0 <= j < |fs| - 1
      ensures fs[1..][j] != fs[0]
    {
      assert fs[1..][j] == fs[j + 1];
    }
  }

  /** The struct's parameter fields are determined by their contents. */
  lemma FieldValuesDetermine(a: Params, b: Params)
    requires forall fd :: fd != TypeField ==> FieldValue(a, fd) == FieldValue(b, fd)
    requires a.typeParam == b.typeParam
    ensures a == b
  {
    assert FieldValue(a, AltIdField) == FieldValue(b, AltIdField);
    assert FieldValue(a, LabelField) == FieldValue(b, LabelField);
    assert FieldValue(a, LanguageField) == FieldValue(b, LanguageField);
    assert FieldValue(a, GeoField) == FieldValue(b, GeoField);
    assert FieldValue(a, TzField) == FieldValue(b, TzField);
    assert FieldValue(a, PidField) == FieldValue(b, PidField);
    assert FieldValue(a, PrefField) == FieldValue(b, PrefField);
    assert FieldValue(a, ValueTypeField) == FieldValue(b, ValueTypeField);
    assert FieldValue(a, MediaTypeField) == FieldValue(b, MediaTypeField);
    assert FieldValue(a, CalScaleField) == FieldValue(b, CalScaleField);
    assert FieldValue(a, SortAsField) == FieldValue(b, SortAsField);
  }

  /** Folding the parameters a struct writes gives back its parameter
      fields. */
  lemma FoldParamList(ps: Params, fs: seq<Field>)
    requires PrintableParams(ps) && Distinct(fs) && Restrict(ps, fs) == ps
    ensures Folding(ParamList(ps, fs)).params == ps
  {
    var folded := Folding(ParamList(ps, fs)).params;
    forall fd | fd != TypeField
      ensures FieldValue(folded, fd) == FieldValue(ps, fd)
    {
      FoldedField(ps, fs, fd);
    }
    FoldedTypes(ps, fs);
    FieldValuesDetermine(folded, ps);
  }

  /** A field other than TYPE is folded back from the written list. */
  lemma FoldedField(ps: Params, fs: seq<Field>, fd: Field)
    requires PrintableParams(ps) && Distinct(fs) && Restrict(ps, fs) == ps
    requires fd != TypeField
    ensures FieldValue(Folding(ParamList(ps, fs)).params, fd) == FieldValue(ps, fd)
  {
    var qs := ParamList(ps, fs);
    ParamListFill(ps, fs, fd);
    if fd != GroupField {
      FoldKeepsLast(qs, fd);
      if fd !in fs {
        assert FieldValue(Restrict(ps, fs), fd) == None;
      }
    }
  }

  /** The TYPE list is folded back from the written list. */
  lemma FoldedTypes(ps: Params, fs: seq<Field>)
    requires PrintableParams(ps) && Distinct(fs) && Restrict(ps, fs) == ps
    ensures Folding(ParamList(ps, fs)).params.typeParam == ps.typeParam
  {
    var qs := ParamList(ps, fs);
    ParamListFill(ps, fs, TypeField);
    FoldConcatenatesTypes(qs);
    ParamListTypes(ps, fs);
    if TypeField !in fs {
      assert Restrict(ps, fs).typeParam == None;
    }
  }

  // ---------------------------------------------------------------------
  // Whole lines

  /** No value text a printable struct writes holds a line feed. */
  lemma ValueTextOneLine(k: PropKind, v: PropValue)
    requires ValueShaped(k, v) && PrintableValue(k, v)
    ensures Free(ValueText(k, v), '\n')
  {
    match v {
      case Positions(positions) =>
        var joined := seq(|positions|, i requires 0 <= i < |positions| => Join(",", positions[i]));
        forall i | 0 <= i < |joined|
          ensures Free(joined[i], '\n')
        {
          assert AllFree(positions[i], '\n');
          JoinFree(",", positions[i], '\n');
        }
        JoinFree(";", joined, '\n');
      case Items(items) =>
        assert AllFree(items, '\n');
        JoinFree(if k == ORG then ";" else ",", items, '\n');
      case GenderValue(sex, identity) =>
        if sex.Some? {
          SexTokenPlain(sex.value);
          assert SexToken(sex.value)[0] != '\n';
        }
      case KindOf(kv) =>
        var x := KindToken(kv);
        forall i | 0 <= i < |x|
          ensures x[i] != '\n'
        {
          assert 'a' <= x[i] <= 'z';
        }
      case Text(_) =>
    }
  }

  /** An upper-case struct name reads back as the name of the line. */
  lemma UpperWordIsName(x: string)
    requires |x| >= 1 && IsUpperWord(x)
    ensures NameText(x) && Free(x, '\0')
  {
  }

  /** The properties whose line reads back as themselves: any struct but
      CLIENTPIDMAP, with a group that is a name, printable parameters and a
      printable value. */
  predicate Printable(p: Prop)
  {
    && WellShaped(p)
    && p.kind != CLIENTPIDMAP
    && (p.group.Some? ==> NameText(p.group.value))
    && PrintableParams(p.params)
    && PrintableValue(p.kind, p.value)
  }

  /** The segments of a printable struct form the parameter part of a
      line, and that part is read back as the parameters they show. */
  lemma SectionRoundTrip(ps: Params, fs: seq<Field>)
    requires PrintableParams(ps)
    ensures var section := Semicolons(Segments(ps, fs));
            && ParameterSection(section)
            && (section == [] <==> ParamList(ps, fs) == [])
            && (section != [] ==> ParameterList(section) == Ok(ParamList(ps, fs)))
  {
    var qs := ParamList(ps, fs);
    var segs := Segments(ps, fs);
    SegmentsShown(ps, fs);
    SegmentsSafe(ps, fs);
    if segs != [] {
      SemicolonsJoin(segs);
      assert AllFree(segs, ':') && AllFree(segs, ';');
      JoinFree(";", segs, ':');
      var section := ";" + Join(";", segs);
      assert Free(section, ':');
      assert |section| >= 2;
      forall i | 0 <= i < |segs| - 1
        ensures segs[i] != [] && segs[i][|segs[i]| - 1] != '\\'
      {
      }
      ParametersOfSegments(segs);
      ParamListRereadable(ps, fs);
      ParseShown(qs);
    }
  }

  /** The line a struct with printable parameters writes is cut into
      its group, its name, the parameters it wrote and its value text, and
      dispatched on the name. */
  lemma LineDispatch(p: Prop)
    requires WellShaped(p)
    requires p.group.Some? ==> NameText(p.group.value)
    requires PrintableParams(p.params) && Free(ValueText(p.kind, p.value), '\n')
    ensures DecodeLine(PropLine(p))
         == Dispatch(PropLine(p), p.group, DisplayName(p.kind), Folding(ParamList(p.params, Fields(p.kind))),
                     ValueText(p.kind, p.value))
  {
    var k := p.kind;
    var fs := Fields(k);
    var section := Semicolons(Segments(p.params, fs));
    var value := ValueText(k, p.value);
    var name := DisplayName(k);
    assert PropLine(p) == LineOf(p.group, name, section, value);
    DisplayNameDispatches(k);
    UpperWordIsName(name);
    SectionRoundTrip(p.params, fs);
    TokenizeLine(p.group, name, section, value);
    assert TrimNul(name) == name;
  }

  /** Every printable property is read back by `Property::from_str` from
      the line its struct writes. */
  lemma PropRoundTrip(p: Prop)
    requires Printable(p)
    ensures DecodeLine(PropLine(p)) == Ok(Typed(p))
  {
    var k := p.kind;
    ValueTextOneLine(k, p.value);
    LineDispatch(p);
    DisplayNameDispatches(k);
    FieldsDistinct(k);
    FoldParamList(p.params, Fields(k));
    KindNamedDispatch(k);
    ValueRoundTrip(k, p.value);
  }

  // ---------------------------------------------------------------------
  // What does not come back

  /** The CLIENTPIDMAP struct writes its name in full, but the decoder
      dispatches on the misspelt `clientidmap`: its line is refused as an
      unknown name. */
  lemma ClientPidMapRefused(p: Prop)
    requires p.kind == CLIENTPIDMAP && WellShaped(p)
    requires p.group.Some? ==> NameText(p.group.value)
    requires PrintableParams(p.params) && Free(p.value.uri, '\n')
    ensures DecodeLine(PropLine(p)) == Err(InvalidName("CLIENTPIDMAP", PropLine(p)))
  {
    var name := DisplayName(CLIENTPIDMAP);
    assert ValueText(CLIENTPIDMAP, p.value) == p.value.uri;
    LineDispatch(p);
    assert name == "CLIENTPIDMAP";
    DisplayNameDispatches(CLIENTPIDMAP);
    ClientPidMapUnnamed();
    NotExtensionName(name);
    DispatchUnknown(PropLine(p), p.group, name, Folding(ParamList(p.params, Fields(CLIENTPIDMAP))), p.value.uri);
  }

  lemma ClientPidMapUnnamed()
    ensures KindNamed("clientpidmap") == None
    ensures "clientpidmap" != "begin" && "clientpidmap" != "end" && "clientpidmap" != "version"
  {
  }

  lemma NotExtensionName(s: string)
    requires |s| >= 1 && s[0] != 'X' && s[0] != 'x'
    ensures !IsExtensionName(s)
  {
    if |s| >= 2 {
      assert s[..2][0] == s[0];
    }
  }

  /** A name that is neither reserved, registered nor an extension name is
      refused. */
  lemma DispatchUnknown(line: string, group: Option<string>, name: string, f: Folded, value: string)
    requires Lower(name) != "begin" && Lower(name) != "end" && Lower(name) != "version"
    requires KindNamed(Lower(name)) == None && !IsExtensionName(name)
    ensures Dispatch(line, group, name, f, value) == Err(InvalidName(name, line))
  {
  }

  /** SORT-AS is written quoted, and the quotes are read back as part of
      the first and last items. */
  lemma SortAsKeepsQuotes(x: string)
    requires Free(x, ',') && Free(x, '"')
    ensures ParseParameter("SORT-AS=\"" + x + "\"") == Ok(SortAs(["\"" + x + "\""]))
    ensures ["\"" + x + "\""] != [x]
  {
    var v := "\"" + x + "\"";
    assert Free(v, ',');
    assert AllFree([v], ',');
    ParameterRoundTrip(SortAs([v]));
    KeyFree(SortAs([v]));
    assert Join(",", [v]) == v;
    assert "SORT-AS=\"" + x + "\"" == "SORT-AS" + "=" + v;
    assert |v| == |x| + 2;
  }

  /** An extension VALUE type is written by its token `Proprietary`, which
      is not a value type the parser knows. */
  lemma ExtensionValueTypeRefused(name: string)
    ensures ParseParameter("VALUE" + "=" + ValueTypeToken(ValueDataType.Proprietary(name)))
         == Err(UnknownType("Proprietary"))
  {
    var v := ValueTypeToken(ValueDataType.Proprietary(name));
    assert v == "Proprietary";
    ValueKeyRead(v);
    NotExtensionName(v);
    UnregisteredValueType(v);
  }

  lemma ValueKeyRead(v: string)
    ensures ParseParameter("VALUE" + "=" + v)
         == match ParseValueDataType(v) case Err(e) => Err(e) case Ok(t) => Ok(Value(t))
  {
    ReadKeyed("VALUE", v);
    assert Lower("VALUE") == "value";
  }

  lemma UnregisteredValueType(s: string)
    requires |s| >= 1 && 'A' <= s[0] <= 'Z' && !IsExtensionName(s)
    ensures ParseValueDataType(s) == Err(UnknownType(s))
  {
  }

  /** LABEL is not written at all: the line of a struct is the same
      whatever label it holds. */
  lemma LabelNotWritten(p: Prop, labelText: Option<string>)
    ensures PropLine(p.(params := p.params.(labelText := labelText))) == PropLine(p)
  {
    var q := p.(params := p.params.(labelText := labelText));
    assert forall fd :: FieldSegments(q.params, fd) == FieldSegments(p.params, fd);
    SegmentsSame(q.params, p.params, Fields(p.kind));
  }

  lemma {:induction false} SegmentsSame(a: Params, b: Params, fs: seq<Field>)
    requires forall fd :: FieldSegments(a, fd) == FieldSegments(b, fd)
    ensures Segments(a, fs) == Segments(b, fs)
  {
    if fs != [] {
      SegmentsSame(a, b, fs[1..]);
    }
  }

  /** A proprietary parameter never reads back as itself: it is written
      bare, so without '=' it is refused, and with one only the text after
      the first '=' is kept. */
  lemma ProprietaryParameterChanged(text: string)
    ensures ParseParameter(ShowParameter(Parameter.Proprietary(text))) != Ok(Parameter.Proprietary(text))
  {
    match SplitOnce(text, '=')
    case None =>
    case Some((k, v)) =>
      assert |v| < |text|;
  }

  // ---------------------------------------------------------------------
  // Proprietary properties

  /** No registered name has '-' as its second character, so no extension
      name selects a struct. */
  lemma ExtensionNotRegistered(id: string)
    requires |id| >= 2 && id[1] == '-'
    ensures KindNamed(id) == None
    ensures id != "begin" && id != "end" && id != "version"
  {
  }

  /** The parameter text of a proprietary line is each parameter's
      `Display` after a ';'. */
  lemma {:induction false} ParameterTextsShown(qs: seq<Parameter>)
    ensures ParameterTexts(qs) == Semicolons(Shown(qs))
    decreases |qs|
  {
    if qs != [] {
      ShownCons(qs);
      ParameterTextsShown(qs[1..]);
    }
  }

  /** Parameters each written as one non-empty segment without ';', ':'
      or '\'. */
  predicate SegmentsPrintable(qs: seq<Parameter>)
  {
    forall i :: 0 <= i < |qs| ==> |ShowParameter(qs[i])| >= 1 && SegmentText(ShowParameter(qs[i]))
  }

  /** The parameter text of a proprietary line forms the parameter part of
      the line and is parsed segment by segment. */
  lemma ProprietarySection(qs: seq<Parameter>)
    requires SegmentsPrintable(qs)
    ensures var section := ParameterTexts(qs);
            && ParameterSection(section)
            && (section == [] <==> qs == [])
            && (section != [] ==> ParameterList(section) == ParseEach(Shown(qs)))
  {
    var segs := Shown(qs);
    ParameterTextsShown(qs);
    if segs != [] {
      SemicolonsJoin(segs);
      assert AllFree(segs, ':') && AllFree(segs, ';');
      JoinFree(";", segs, ':');
      var section := ";" + Join(";", segs);
      assert Free(section, ':');
      assert |section| >= 2;
      forall i | 0 <= i < |segs| - 1
        ensures segs[i] != [] && segs[i][|segs[i]| - 1] != '\\'
      {
      }
      ParametersOfSegments(segs);
    }
  }

  /** An extension name selects no struct: the line becomes a proprietary
      property carrying the regrouped parameters. */
  lemma DispatchExtension(line: string, group: Option<string>, name: string, f: Folded, value: string)
    requires IsExtensionName(name)
    ensures Dispatch(line, group, name, f, value)
         == Ok(Property.Proprietary(ProprietaryProperty(name, group, value, f.proprietary + Reappended(f.params))))
  {
    var id := Lower(name);
    assert name[..2] == "X-" || name[..2] == "x-";
    assert id[1] == '-';
    ExtensionNotRegistered(id);
  }

  /** A line the pattern cuts into captures whose parameter text parses to
      `ps` is dispatched with those parameters folded. */
  lemma DecodeCaptured(line: string, m: Captures, ps: seq<Parameter>)
    requires Tokenize(line) == Some(m)
    requires m.parameters.None? ==> ps == []
    requires m.parameters.Some? ==> ParameterList(m.parameters.value) == Ok(ps)
    ensures DecodeLine(line) == Dispatch(line, m.group, TrimNul(m.name), Folding(ps), m.value)
  {
  }

  /** A proprietary property is read back with the parameters its segments
      parse to, regrouped: those that stay proprietary first, then the
      recognised ones in the fixed order of `Reappended`, which has no
      place for VALUE. */
  lemma ProprietaryLineRead(pp: ProprietaryProperty, rs: seq<Parameter>)
    requires IsExtensionName(pp.name)
    requires NameText(pp.name) && Free(pp.name, '\0')
    requires pp.group.Some? ==> NameText(pp.group.value)
    requires Free(pp.value, '\n')
    requires SegmentsPrintable(pp.parameters)
    requires ParseEach(Shown(pp.parameters)) == Ok(rs)
    ensures DecodeLine(ProprietaryLine(pp))
         == Ok(Property.Proprietary(pp.(parameters := Folding(rs).proprietary + Reappended(Folding(rs).params))))
  {
    var section := ParameterTexts(pp.parameters);
    var line := ProprietaryLine(pp);
    ProprietarySection(pp.parameters);
    assert line == LineOf(pp.group, pp.name, section, pp.value);
    TokenizeLine(pp.group, pp.name, section, pp.value);
    var m := Captures(pp.group, pp.name, if section == [] then None else Some(section), pp.value);
    if section == [] {
      assert pp.parameters == [] && rs == [];
    }
    DecodeCaptured(line, m, rs);
    assert TrimNul(pp.name) == pp.name;
    DispatchExtension(line, pp.group, pp.name, Folding(rs), pp.value);
  }

  /** Parameters that each read back as themselves come back from a
      proprietary line as `Reappended` lists them: none of them stays
      proprietary, VALUE is lost and the rest follow its key order. */
  lemma ProprietaryParametersRegrouped(pp: ProprietaryProperty)
    requires IsExtensionName(pp.name)
    requires NameText(pp.name) && Free(pp.name, '\0')
    requires pp.group.Some? ==> NameText(pp.group.value)
    requires Free(pp.value, '\n')
    requires RereadableSegments(pp.parameters)
    ensures DecodeLine(ProprietaryLine(pp))
         == Ok(Property.Proprietary(pp.(parameters := Reappended(Folding(pp.parameters).params))))
  {
    var qs := pp.parameters;
    RereadableSegmentsPrintable(qs);
    ParseShown(qs);
    ProprietaryLineRead(pp, qs);
    FoldKeepsProprietary(qs);
    NoProprietaryIn(qs);
    var f := Folding(qs);
    assert f.proprietary + Reappended(f.params) == Reappended(f.params);
  }

  /** Parameters that each read back as themselves from a segment without
      ';', ':' or '\\'. */
  predicate RereadableSegments(qs: seq<Parameter>)
  {
    forall i :: 0 <= i < |qs| ==> Rereadable(qs[i]) && SegmentText(ShowParameter(qs[i]))
  }

  lemma RereadableSegmentsPrintable(qs: seq<Parameter>)
    requires RereadableSegments(qs)
    ensures SegmentsPrintable(qs)
  {
    forall i | 0 <= i < |qs|
      ensures |ShowParameter(qs[i])| >= 1
    {
      assert !qs[i].Proprietary?;
    }
  }

  /** A proprietary property whose parameters each read back as
      themselves is read back from the line it writes exactly when those
      parameters are already in the order `Reappended` gives them, so
      without VALUE. */
  lemma ProprietaryRoundTrip(pp: ProprietaryProperty)
    requires IsExtensionName(pp.name)
    requires NameText(pp.name) && Free(pp.name, '\0')
    requires pp.group.Some? ==> NameText(pp.group.value)
    requires Free(pp.value, '\n')
    requires RereadableSegments(pp.parameters)
    ensures DecodeLine(ProprietaryLine(pp)) == Ok(Property.Proprietary(pp))
        <==> pp.parameters == Reappended(Folding(pp.parameters).params)
  {
    ProprietaryParametersRegrouped(pp);
  }

  lemma {:induction false} NoProprietaryIn(qs: seq<Parameter>)
    requires forall i :: 0 <= i < |qs| ==> Rereadable(qs[i])
    ensures ProprietaryIn(qs) == []
    decreases |qs|
  {
    if qs != [] {
      NoProprietaryIn(qs[..|qs| - 1]);
      assert !qs[|qs| - 1].Proprietary?;
    }
  }

  /** VALUE on an extension property is parsed and then dropped. */
  lemma ProprietaryValueDropped(pp: ProprietaryProperty, t: ValueDataType)
    requires IsExtensionName(pp.name)
    requires NameText(pp.name) && Free(pp.name, '\0')
    requires pp.group.Some? ==> NameText(pp.group.value)
    requires Free(pp.value, '\n')
    requires pp.parameters == [Value(t)] && !t.Proprietary?
    ensures DecodeLine(ProprietaryLine(pp)) == Ok(Property.Proprietary(pp.(parameters := [])))
  {
    TokenSafe(t);
    KeySafe(Value(t));
    KeyedSegmentText(ParameterKey(Value(t)), ValueTypeToken(t));
    assert RereadableSegments(pp.parameters);
    ProprietaryParametersRegrouped(pp);
    ValueFolded(t);
  }

  lemma ValueFolded(t: ValueDataType)
    ensures Reappended(Folding([Value(t)]).params) == []
  {
    var qs := [Value(t)];
    var f1 := FoldStep(Folded(NoParams, []), Value(t));
    assert qs[1..] == [];
    assert Folding(qs) == FoldFrom(f1, []) == f1;
  }

  /** LANGUAGE written before ALTID on an extension property is read back
      after it. */
  lemma ProprietaryParametersReordered(pp: ProprietaryProperty, language: string, altid: string)
    requires IsExtensionName(pp.name)
    requires NameText(pp.name) && Free(pp.name, '\0')
    requires pp.group.Some? ==> NameText(pp.group.value)
    requires Free(pp.value, '\n')
    requires SegmentText(language) && SegmentText(altid)
    requires pp.parameters == [Language(language), AltId(altid)]
    ensures DecodeLine(ProprietaryLine(pp))
         == Ok(Property.Proprietary(pp.(parameters := [AltId(altid), Language(language)])))
  {
    KeySafe(Language(language));
    KeySafe(AltId(altid));
    KeyedSegmentText(ParameterKey(Language(language)), language);
    KeyedSegmentText(ParameterKey(AltId(altid)), altid);
    assert RereadableSegments(pp.parameters);
    ProprietaryParametersRegrouped(pp);
    LanguageAltIdFolded(language, altid);
  }

  lemma LanguageAltIdFolded(language: string, altid: string)
    ensures Reappended(Folding([Language(language), AltId(altid)]).params) == [AltId(altid), Language(language)]
  {
    var qs := [Language(language), AltId(altid)];
    var f1 := FoldStep(Folded(NoParams, []), Language(language));
    var f2 := FoldStep(f1, AltId(altid));
    assert qs[1..] == [AltId(altid)] && qs[1..][1..] == [];
    assert Folding(qs) == FoldFrom(f1, qs[1..]) == FoldFrom(f2, []) == f2;
  }
}
