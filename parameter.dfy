// The parameters a property line may carry (vcard/src/models/parameter.rs):
// their textual form, how one `KEY=value` segment is parsed, and the value
// data types of the VALUE parameter.
module Parameters {
  import opened Errors
  import opened Strings

  /** A PID parameter: `first` or `first.second`. */
  datatype Pid = Pid(firstDigit: u8, secondDigit: Option<u8>)

  /** The value data types of section 5.2 of RFC 6350, or an extension
      type whose name starts with `X-`. */
  datatype ValueDataType =
    | Uri | Text | Date | Time | DateTime | DateAndOrTime | Timestamp
    | Boolean | Integer | Float | UtcOffset | LanguageTag
    | Proprietary(name: string)

  datatype Parameter =
    | Label(labelText: string)
    | Language(language: string)
    | Value(valueType: ValueDataType)
    | Pref(pref: u8)
    | AltId(altId: string)
    | Pid(pid: Pid)
    | Type(types: seq<string>)
    | MediaType(mediaType: string)
    | CalScale(calScale: string)
    | SortAs(sortAs: seq<string>)
    | Geo(geo: string)
    | TimeZone(tz: string)
    | Proprietary(text: string)

  // ---------------------------------------------------------------------
  // Value data types

  /** The registered name of a value data type (the `AsRefStr` form); an
      extension type has no registered name and gives `"Proprietary"`. */
  function ValueTypeToken(t: ValueDataType): string
  {
    match t
    case Uri => "uri"
    case Text => "text"
    case Date => "date"
    case Time => "time"
    case DateTime => "date-time"
    case DateAndOrTime => "date-and-or-time"
    case Timestamp => "timestamp"
    case Boolean => "boolean"
    case Integer => "integer"
    case Float => "float"
    case UtcOffset => "utc-offset"
    case LanguageTag => "language-tag"
    case Proprietary(_) => "Proprietary"
  }

  /** `Display` of a value data type: the registered name, or the extension
      type's own text. */
  function ShowValueDataType(t: ValueDataType): string
  {
    if t.Proprietary? then t.name else ValueTypeToken(t)
  }

  predicate IsExtensionName(s: string)
  {
    StartsWith(s, "X-") || StartsWith(s, "x-")
  }

  /** `ValueDataType::from_str`: a registered name, matched case-sensitively,
      or an extension name; anything else is an unknown type. */
  function ParseValueDataType(s: string): Result<ValueDataType>
  {
    if s == "uri" then Ok(Uri)
    else if s == "text" then Ok(Text)
    else if s == "date" then Ok(Date)
    else if s == "time" then Ok(Time)
    else if s == "date-time" then Ok(DateTime)
    else if s == "date-and-or-time" then Ok(DateAndOrTime)
    else if s == "timestamp" then Ok(Timestamp)
    else if s == "boolean" then Ok(Boolean)
    else if s == "integer" then Ok(Integer)
    else if s == "float" then Ok(Float)
    else if s == "utc-offset" then Ok(UtcOffset)
    else if s == "language-tag" then Ok(LanguageTag)
    else if !IsExtensionName(s) then Err(UnknownType(s))
    else Ok(ValueDataType.Proprietary(s))
  }

  /** The value data types `ParseValueDataType` can produce. */
  predicate ValidValueType(t: ValueDataType)
  {
    t.Proprietary? ==> IsExtensionName(t.name)
  }

  /** Parsing accepts exactly the texts `Display` writes for a valid value
      data type: whatever it accepts is written back unchanged, and whatever
      valid value is written is read back. */
  lemma ValueDataTypeRoundTrip(s: string, t: ValueDataType)
    ensures ParseValueDataType(s) == Ok(t) ==> ValidValueType(t) && ShowValueDataType(t) == s
    ensures ValidValueType(t) ==> ParseValueDataType(ShowValueDataType(t)) == Ok(t)
  {
    if t.Proprietary? && IsExtensionName(t.name) {
      var n := t.name;
      assert n[..2] == "X-" || n[..2] == "x-";
      assert n[0] == 'X' || n[0] == 'x';
      assert n != "uri" && n != "text" && n != "date" && n != "time";
      assert n != "date-time" && n != "date-and-or-time" && n != "timestamp";
      assert n != "boolean" && n != "integer" && n != "float";
      assert n != "utc-offset" && n != "language-tag";
    }
  }

  // ---------------------------------------------------------------------
  // PID

  /** `Display` of a PID. */
  function ShowPid(p: Pid): string
  {
    if p.secondDigit.Some? then ShowNat(p.firstDigit) + "." + ShowNat(p.secondDigit.value)
    else ShowNat(p.firstDigit)
  }

  /** The PID arm of `Parameter::from_str`: the text is split at `.`; the
      first piece and, when present, the second are read as `u8`; further
      pieces are ignored. */
  function ParsePid(v: string): Result<Pid>
  {
    var pieces := Split(v, '.');
    match ParseU8(pieces[0])
    case Err(e) => Err(e)
    case Ok(first) =>
      if |pieces| == 1 then Ok(Pid.Pid(first, None))
      else match ParseU8(pieces[1])
        case Err(e) => Err(e)
        case Ok(second) => Ok(Pid.Pid(first, Some(second)))
  }

  lemma DigitsFreeOf(n: nat, c: char)
    requires !IsDigit(c)
    ensures Free(ShowNat(n), c)
  {
  }

  /** Every PID reads back from the text `Display` writes for it. */
  lemma PidRoundTrip(p: Pid)
    ensures ParsePid(ShowPid(p)) == Ok(p)
  {
    DigitsFreeOf(p.firstDigit, '.');
    ParseShowU8(p.firstDigit);
    if p.secondDigit.Some? {
      DigitsFreeOf(p.secondDigit.value, '.');
      ParseShowU8(p.secondDigit.value);
      var parts := [ShowNat(p.firstDigit), ShowNat(p.secondDigit.value)];
      assert Join(".", parts) == ShowPid(p);
      SplitJoin(parts, '.');
    } else {
      FindFromFree(ShowNat(p.firstDigit), '.', 0);
    }
  }

  // ---------------------------------------------------------------------
  // One parameter

  /** `Display` of a parameter: `KEY=value`; a proprietary parameter is
      written as its bare value. */
  function ShowParameter(p: Parameter): string
  {
    if p.Proprietary? then p.text else ParameterKey(p) + "=" + ParameterText(p)
  }

  /** The key `Display` writes for a parameter. */
  function ParameterKey(p: Parameter): string
  {
    match p
    case Label(_) => "LABEL"
    case Language(_) => "LANGUAGE"
    case Value(_) => "VALUE"
    case Pref(_) => "PREF"
    case AltId(_) => "ALTID"
    case Pid(_) => "PID"
    case Type(_) => "TYPE"
    case MediaType(_) => "MEDIATYPE"
    case CalScale(_) => "CALSCALE"
    case SortAs(_) => "SORT-AS"
    case Geo(_) => "GEO"
    case TimeZone(_) => "TZ"
    case Proprietary(_) => ""
  }

  /** The value `Display` writes for a parameter, lists joined by `,`. */
  function ParameterText(p: Parameter): string
  {
    match p
    case Label(l) => l
    case Language(l) => l
    case Value(v) => ShowValueDataType(v)
    case Pref(n) => ShowNat(n)
    case AltId(a) => a
    case Pid(pid) => ShowPid(pid)
    case Type(ts) => Join(",", ts)
    case MediaType(m) => m
    case CalScale(c) => c
    case SortAs(ss) => Join(",", ss)
    case Geo(g) => g
    case TimeZone(t) => t
    case Proprietary(text) => text
  }

  /** `Parameter::from_str`: the segment is cut at its first `=`; the key,
      lower-cased, chooses the parameter. */
  function ParseParameter(raw: string): Result<Parameter>
  {
    match SplitOnce(raw, '=')
    case None => Err(InvalidLine("parameter has no = sign", raw))
    case Some((k, v)) => KeyedParameter(Lower(k), v)
  }

  /** The parameter a lower-cased key and its value make; an unknown key
      (LABEL included) keeps only the value, as a proprietary parameter. */
  function KeyedParameter(id: string, v: string): Result<Parameter>
  {
    if id == "language" then Ok(Language(v))
    else if id == "pref" then
      (match ParseU8(v) case Err(e) => Err(e) case Ok(n) => Ok(Pref(n)))
    else if id == "altid" then Ok(AltId(v))
    else if id == "pid" then
      (match ParsePid(v) case Err(e) => Err(e) case Ok(pid) => Ok(Parameter.Pid(pid)))
    else if id == "value" then
      (match ParseValueDataType(v) case Err(e) => Err(e) case Ok(t) => Ok(Value(t)))
    else if id == "type" then Ok(Type(Split(v, ',')))
    else if id == "mediatype" then Ok(MediaType(v))
    else if id == "calscale" then Ok(CalScale(v))
    else if id == "sort-as" then Ok(SortAs(Split(v, ',')))
    else if id == "geo" then Ok(Geo(v))
    else if id == "tz" then Ok(TimeZone(v))
    else Ok(Parameter.Proprietary(v))
  }

  /** The parameters whose written form `ParseParameter` reads back: every
      one but LABEL and proprietary parameters, with a valid value data type
      and non-empty TYPE and SORT-AS lists whose items hold no `,`. */
  predicate Rereadable(p: Parameter)
  {
    match p
    case Label(_) => false
    case Proprietary(_) => false
    case Value(v) => ValidValueType(v)
    case Type(ts) => |ts| >= 1 && AllFree(ts, ',')
    case SortAs(ss) => |ss| >= 1 && AllFree(ss, ',')
    case _ => true
  }

  lemma ReadKeyed(key: string, v: string)
    requires Free(key, '=')
    ensures ParseParameter(key + "=" + v) == KeyedParameter(Lower(key), v)
  {
    FindAfterFree(key, '=', v);
    var s := key + "=" + v;
    assert s[..|key|] == key && s[|key| + 1..] == v;
  }

  /** Every rereadable parameter is read back from the text `Display`
      writes for it. */
  lemma ParameterRoundTrip(p: Parameter)
    requires Rereadable(p)
    ensures ParseParameter(ShowParameter(p)) == Ok(p)
  {
    KeyFree(p);
    ReadKeyed(ParameterKey(p), ParameterText(p));
    KeyedRoundTrip(p);
  }

  lemma KeyFree(p: Parameter)
    requires !p.Proprietary?
    ensures Free(ParameterKey(p), '=')
    ensures ShowParameter(p) == ParameterKey(p) + "=" + ParameterText(p)
  {
    var key := ParameterKey(p);
    assert IsUpperWord(key) by {
      match p
      case Label(_) =>
      case Language(_) =>
      case Value(_) =>
      case Pref(_) =>
      case AltId(_) =>
      case Pid(_) =>
      case Type(_) =>
      case MediaType(_) =>
      case CalScale(_) =>
      case SortAs(_) =>
      case Geo(_) =>
      case TimeZone(_) =>
    }
  }

  lemma KeyedRoundTrip(p: Parameter)
    requires Rereadable(p)
    ensures KeyedParameter(Lower(ParameterKey(p)), ParameterText(p)) == Ok(p)
  {
    if p.Language? || p.AltId? || p.MediaType? {
      KeyedTextRoundTrip(p);
    } else if p.CalScale? || p.Geo? || p.TimeZone? {
      KeyedLateTextRoundTrip(p);
    } else if p.Value? || p.Pref? || p.Pid? {
      KeyedCodedRoundTrip(p);
    } else {
      KeyedListRoundTrip(p);
    }
  }

  lemma KeyedTextRoundTrip(p: Parameter)
    requires p.Language? || p.AltId? || p.MediaType?
    ensures KeyedParameter(Lower(ParameterKey(p)), ParameterText(p)) == Ok(p)
  {
    match p
    case Language(l) =>
      assert Lower("LANGUAGE") == "language";
    case AltId(a) =>
      assert Lower("ALTID") == "altid";
    case MediaType(m) =>
      assert Lower("MEDIATYPE") == "mediatype";
  }

  lemma KeyedLateTextRoundTrip(p: Parameter)
    requires p.CalScale? || p.Geo? || p.TimeZone?
    ensures KeyedParameter(Lower(ParameterKey(p)), ParameterText(p)) == Ok(p)
  {
    match p
    case CalScale(c) =>
      assert Lower("CALSCALE") == "calscale";
    case Geo(g) =>
      assert Lower("GEO") == "geo";
    case TimeZone(t) =>
      assert Lower("TZ") == "tz";
  }

  lemma KeyedCodedRoundTrip(p: Parameter)
    requires p.Value? || p.Pref? || p.Pid?
    requires Rereadable(p)
    ensures KeyedParameter(Lower(ParameterKey(p)), ParameterText(p)) == Ok(p)
  {
    match p
    case Value(t) =>
      assert Lower("VALUE") == "value";
      ValueDataTypeRoundTrip(ShowValueDataType(t), t);
    case Pref(n) =>
      assert Lower("PREF") == "pref";
      ParseShowU8(n);
    case Pid(pid) =>
      assert Lower("PID") == "pid";
      PidRoundTrip(pid);
  }

  lemma KeyedListRoundTrip(p: Parameter)
    requires p.Type? || p.SortAs?
    requires Rereadable(p)
    ensures KeyedParameter(Lower(ParameterKey(p)), ParameterText(p)) == Ok(p)
  {
    match p
    case Type(ts) =>
      assert Lower("TYPE") == "type";
      SplitJoin(ts, ',');
    case SortAs(ss) =>
      assert Lower("SORT-AS") == "sort-as";
      SplitJoin(ss, ',');
  }

  /** A LABEL parameter is written as `LABEL=...`, but `label` is not a key
      the parser knows, so it comes back as a proprietary parameter holding
      only the label text. */
  lemma LabelReadsBackAsProprietary(l: string)
    ensures ParseParameter(ShowParameter(Label(l))) == Ok(Parameter.Proprietary(l))
  {
    ReadKeyed("LABEL", l);
    var id := Lower("LABEL");
    assert id == "label";
    assert id != "language" && id != "pref" && id != "altid" && id != "pid";
    assert id != "value" && id != "type" && id != "mediatype" && id != "calscale";
    assert id != "sort-as" && id != "geo" && id != "tz";
  }

  /** A segment without `=` is refused, naming the whole segment. */
  lemma ParameterWithoutEquals(raw: string)
    requires Free(raw, '=')
    ensures ParseParameter(raw) == Err(InvalidLine("parameter has no = sign", raw))
  {
  }
}
