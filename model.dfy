// The property types of a vCard (vcard/src/models/model.rs) and the
// per-struct facts the `vcard_macro` crate derives from their declarations.
//
// The Rust crate declares one struct per property. They differ only in which
// optional parameter fields they carry (and in what order), whether they
// carry a group, and the shape of their value. Here one `Prop` datatype holds
// every property, and `Fields(kind)` is the descriptor table that lists, for
// each struct, its parameter-bearing fields in declaration order: the decoder
// keeps exactly these fields, and the `#[vcard]` `Display` writes them in
// this order.
module Model {
  import opened Errors
  import opened Strings
  import opened Parameters

  // ---------------------------------------------------------------------
  // Enumerated values

  /** VERSION, section 6.7.9 of RFC 6350; the default is 4.0. */
  datatype VersionValue = V3 | V4

  function VersionToken(v: VersionValue): string
  {
    if v == V3 then "3.0" else "4.0"
  }

  /** KIND, section 6.1.4 of RFC 6350. */
  datatype KindValue = Individual | Group | Org | Location | Proprietary(kind: string)

  /** The `AsRefStr` form: an unregistered kind gives `"Proprietary"`. */
  function KindToken(k: KindValue): string
  {
    match k
    case Individual => "individual"
    case Group => "group"
    case Org => "org"
    case Location => "location"
    case Proprietary(_) => "Proprietary"
  }

  /** `KindValue::from_str`: the lower-cased text chooses a registered kind;
      anything else is kept, unchanged, as an unregistered kind. It never
      fails. */
  function ParseKindValue(s: string): KindValue
  {
    var id := Lower(s);
    if id == "individual" then Individual
    else if id == "group" then Group
    else if id == "org" then Org
    else if id == "location" then Location
    else KindValue.Proprietary(s)
  }

  /** A registered kind reads back from its token; an unregistered kind is
      written as the word `Proprietary`, which reads back as an
      unregistered kind named `Proprietary`, so its own name is lost. */
  lemma KindValueRoundTrip(k: KindValue)
    ensures !k.Proprietary? ==> ParseKindValue(KindToken(k)) == k
    ensures k.Proprietary? ==> ParseKindValue(KindToken(k)) == KindValue.Proprietary("Proprietary")
  {
    assert Lower("individual") == "individual";
    assert Lower("group") == "group";
    assert Lower("org") == "org";
    assert Lower("location") == "location";
    assert Lower("Proprietary") == "proprietary";
  }

  /** Sex component of GENDER, section 6.2.7 of RFC 6350 (`Sex::None` of
      the Rust code is `NotApplicable` here). */
  datatype Sex = Male | Female | Other | NotApplicable | Unknown

  function SexToken(s: Sex): string
  {
    match s
    case Male => "m"
    case Female => "f"
    case Other => "o"
    case NotApplicable => "n"
    case Unknown => "u"
  }

  /** `Sex::from_str`: one of the letters m, f, o, n, u in either case. */
  function ParseSex(s: string): Result<Sex>
  {
    var id := Lower(s);
    if id == "m" then Ok(Male)
    else if id == "f" then Ok(Female)
    else if id == "o" then Ok(Other)
    else if id == "n" then Ok(NotApplicable)
    else if id == "u" then Ok(Unknown)
    else Err(InvalidGenderError(s))
  }

  /** Every sex reads back from its token, and the upper-case letter is
      accepted too. */
  lemma SexRoundTrip(s: Sex)
    ensures ParseSex(SexToken(s)) == Ok(s)
    ensures ParseSex(Lower(SexToken(s))) == Ok(s)
  {
    assert Lower("m") == "m" && Lower("f") == "f" && Lower("o") == "o";
    assert Lower("n") == "n" && Lower("u") == "u";
  }

  /** `Sex::from_str` is case-insensitive and refuses any other text,
      naming it in the error. */
  lemma ParseSexSpec(s: string)
    ensures ParseSex(s).Ok? <==> Lower(s) in {"m", "f", "o", "n", "u"}
    ensures ParseSex(s).Err? ==> ParseSex(s) == Err(InvalidGenderError(s))
    ensures ParseSex(s).Ok? ==> SexToken(ParseSex(s).value) == Lower(s)
  {
  }

  // ---------------------------------------------------------------------
  // Property kinds and their descriptors

  /** One constructor per property struct, named as the property is
      written on the wire. */
  datatype PropKind =
    | SOURCE | KIND | XML | FN | N | NICKNAME | PHOTO | BDAY | ANNIVERSARY | GENDER
    | ADR | TEL | EMAIL | IMPP | LANG | TZ | GEO | TITLE | ROLE | LOGO | ORG
    | MEMBER | RELATED | CATEGORIES | NOTE | PRODID | REV | SOUND | UID
    | CLIENTPIDMAP | URL | KEY | FBURL | CALADURI | CALURI

  /** The optional fields a property struct may declare besides its value. */
  datatype Field =
    | GroupField | AltIdField | LabelField | LanguageField | GeoField | TzField
    | PidField | PrefField | ValueTypeField | TypeField | MediaTypeField
    | CalScaleField | SortAsField

  /** The descriptor table: each struct's optional fields in declaration
      order. */
  function Fields(k: PropKind): seq<Field>
  {
    match k
    case SOURCE => [GroupField, PidField, AltIdField, MediaTypeField]
    case KIND => [GroupField]
    case XML => [AltIdField, GroupField]
    case FN => [GroupField, AltIdField, ValueTypeField, TypeField, LanguageField, PrefField]
    case N => [AltIdField, LanguageField, SortAsField, GroupField]
    case NICKNAME => [GroupField, AltIdField, ValueTypeField, TypeField, LanguageField, PrefField, PidField]
    case PHOTO => [GroupField, AltIdField, ValueTypeField, TypeField, MediaTypeField, PrefField, PidField]
    case BDAY => [AltIdField, CalScaleField, ValueTypeField, LanguageField]
    case ANNIVERSARY => [AltIdField, CalScaleField, ValueTypeField]
    case GENDER => []
    case ADR => [GroupField, AltIdField, LabelField, LanguageField, GeoField, TzField, PidField,
                 PrefField, ValueTypeField, TypeField]
    case TEL => [ValueTypeField, TypeField, PidField, PrefField, AltIdField]
    case EMAIL => [GroupField, AltIdField, PidField, PrefField, ValueTypeField, TypeField]
    case IMPP => [GroupField, AltIdField, PidField, PrefField, MediaTypeField, ValueTypeField, TypeField]
    case LANG => [GroupField, AltIdField, PidField, PrefField, ValueTypeField, TypeField]
    case TZ => [GroupField, AltIdField, PidField, PrefField, ValueTypeField, TypeField, MediaTypeField]
    case GEO => [GroupField, AltIdField, PidField, PrefField, ValueTypeField, TypeField, MediaTypeField]
    case TITLE => [GroupField, AltIdField, PidField, PrefField, ValueTypeField, TypeField, LanguageField]
    case ROLE => [GroupField, AltIdField, PidField, PrefField, ValueTypeField, TypeField, LanguageField]
    case LOGO => [GroupField, AltIdField, PidField, PrefField, ValueTypeField, TypeField, LanguageField,
                  MediaTypeField]
    case ORG => [GroupField, AltIdField, PidField, PrefField, ValueTypeField, TypeField, LanguageField,
                 SortAsField]
    case MEMBER => [GroupField, AltIdField, PidField, PrefField, MediaTypeField]
    case RELATED => [GroupField, AltIdField, PidField, PrefField, ValueTypeField, TypeField, LanguageField,
                     MediaTypeField]
    case CATEGORIES => [GroupField, AltIdField, PidField, PrefField, ValueTypeField, TypeField]
    case NOTE => [GroupField, AltIdField, PidField, PrefField, ValueTypeField, TypeField, LanguageField]
    case PRODID => [GroupField]
    case REV => [GroupField]
    case SOUND => [GroupField, AltIdField, PidField, PrefField, ValueTypeField, TypeField, LanguageField,
                   MediaTypeField]
    case UID => [GroupField, ValueTypeField]
    case CLIENTPIDMAP => [GroupField]
    case URL => [GroupField, AltIdField, PidField, PrefField, ValueTypeField, TypeField, MediaTypeField]
    case KEY => [GroupField, AltIdField, PidField, PrefField, ValueTypeField, TypeField, MediaTypeField]
    case FBURL => [GroupField, AltIdField, PidField, PrefField, ValueTypeField, TypeField, MediaTypeField]
    case CALADURI => [GroupField, AltIdField, PidField, PrefField, ValueTypeField, TypeField, MediaTypeField]
    case CALURI => [GroupField, AltIdField, PidField, PrefField, ValueTypeField, TypeField, MediaTypeField]
  }

  /** The structs that derive `Pref`, and so have `get_pref`. */
  predicate DerivesPref(k: PropKind)
  {
    k in {FN, PHOTO, ADR, TEL, EMAIL, IMPP, LANG, TZ, GEO, TITLE, ROLE, LOGO, ORG, MEMBER, RELATED}
  }

  /** The name the `#[vcard]` `Display` writes: the struct name in upper
      case. */
  function DisplayName(k: PropKind): string
  {
    match k
    case SOURCE => "SOURCE"
    case KIND => "KIND"
    case XML => "XML"
    case FN => "FN"
    case N => "N"
    case NICKNAME => "NICKNAME"
    case PHOTO => "PHOTO"
    case BDAY => "BDAY"
    case ANNIVERSARY => "ANNIVERSARY"
    case GENDER => "GENDER"
    case ADR => "ADR"
    case TEL => "TEL"
    case EMAIL => "EMAIL"
    case IMPP => "IMPP"
    case LANG => "LANG"
    case TZ => "TZ"
    case GEO => "GEO"
    case TITLE => "TITLE"
    case ROLE => "ROLE"
    case LOGO => "LOGO"
    case ORG => "ORG"
    case MEMBER => "MEMBER"
    case RELATED => "RELATED"
    case CATEGORIES => "CATEGORIES"
    case NOTE => "NOTE"
    case PRODID => "PRODID"
    case REV => "REV"
    case SOUND => "SOUND"
    case UID => "UID"
    case CLIENTPIDMAP => "CLIENTPIDMAP"
    case URL => "URL"
    case KEY => "KEY"
    case FBURL => "FBURL"
    case CALADURI => "CALADURI"
    case CALURI => "CALURI"
  }

  /** The lower-case name `Property::from_str` dispatches on. Every name is
      the display name in lower case except CLIENTPIDMAP's, which the
      decoder spells `clientidmap`. */
  function DispatchName(k: PropKind): string
  {
    match k
    case SOURCE => "source"
    case KIND => "kind"
    case XML => "xml"
    case FN => "fn"
    case N => "n"
    case NICKNAME => "nickname"
    case PHOTO => "photo"
    case BDAY => "bday"
    case ANNIVERSARY => "anniversary"
    case GENDER => "gender"
    case ADR => "adr"
    case TEL => "tel"
    case EMAIL => "email"
    case IMPP => "impp"
    case LANG => "lang"
    case TZ => "tz"
    case GEO => "geo"
    case TITLE => "title"
    case ROLE => "role"
    case LOGO => "logo"
    case ORG => "org"
    case MEMBER => "member"
    case RELATED => "related"
    case CATEGORIES => "categories"
    case NOTE => "note"
    case PRODID => "prodid"
    case REV => "rev"
    case SOUND => "sound"
    case UID => "uid"
    case CLIENTPIDMAP => "clientidmap"
    case URL => "url"
    case KEY => "key"
    case FBURL => "fburl"
    case CALADURI => "caladuri"
    case CALURI => "caluri"
  }

  // ---------------------------------------------------------------------
  // Properties

  /** The optional parameter fields of a property struct (a struct holds
      only those its descriptor lists; the rest stay `None`). */
  datatype Params = Params(
    altid: Option<string>,
    labelText: Option<string>,
    language: Option<string>,
    geo: Option<string>,
    tz: Option<string>,
    pid: Option<Pid>,
    pref: Option<u8>,
    valueType: Option<ValueDataType>,
    typeParam: Option<seq<string>>,
    mediatype: Option<string>,
    calscale: Option<string>,
    sortAs: Option<seq<string>>)

  const NoParams := Params(None, None, None, None, None, None, None, None, None, None, None, None)

  /** The parameter fields a struct with the fields `fs` keeps. */
  function Restrict(ps: Params, fs: seq<Field>): Params
  {
    Params(
      if AltIdField in fs then ps.altid else None,
      if LabelField in fs then ps.labelText else None,
      if LanguageField in fs then ps.language else None,
      if GeoField in fs then ps.geo else None,
      if TzField in fs then ps.tz else None,
      if PidField in fs then ps.pid else None,
      if PrefField in fs then ps.pref else None,
      if ValueTypeField in fs then ps.valueType else None,
      if TypeField in fs then ps.typeParam else None,
      if MediaTypeField in fs then ps.mediatype else None,
      if CalScaleField in fs then ps.calscale else None,
      if SortAsField in fs then ps.sortAs else None)
  }

  /** The value of a property, by shape: a text; the ';'-separated
      positions of N (5) and ADR (7), each a list of ','-separated items;
      the item list of NICKNAME, CATEGORIES and ORG; GENDER's two
      components; KIND's kind; CLIENTPIDMAP's digit and URI. */
  datatype PropValue =
    | Text(text: string)
    | Positions(positions: seq<seq<string>>)
    | Items(items: seq<string>)
    | GenderValue(sex: Option<Sex>, identity: Option<string>)
    | KindOf(kindValue: KindValue)
    | PidMap(pidDigit: u8, uri: string)

  datatype Prop = Prop(kind: PropKind, group: Option<string>, params: Params, value: PropValue)

  /** The value shape each struct declares. */
  predicate ValueShaped(k: PropKind, v: PropValue)
  {
    match k
    case N => v.Positions? && |v.positions| == 5
    case ADR => v.Positions? && |v.positions| == 7
    case NICKNAME => v.Items?
    case CATEGORIES => v.Items?
    case ORG => v.Items?
    case GENDER => v.GenderValue?
    case KIND => v.KindOf?
    case CLIENTPIDMAP => v.PidMap?
    case _ => v.Text?
  }

  /** A `Prop` that some property struct can hold. */
  predicate WellShaped(p: Prop)
  {
    && ValueShaped(p.kind, p.value)
    && (p.group.Some? ==> GroupField in Fields(p.kind))
    && Restrict(p.params, Fields(p.kind)) == p.params
  }

  /** A property whose name is not one of the registered ones: its name
      (starting with `X-`), group, value and parameters are kept as read. */
  datatype ProprietaryProperty =
    ProprietaryProperty(name: string, group: Option<string>, value: string, parameters: seq<Parameter>)

  /** `get_alt_id`: the ALTID parameter, or the empty text without one. */
  function GetAltId(p: Prop): (r: string)
    ensures p.params.altid.Some? ==> r == p.params.altid.value
    ensures AltIdField !in Fields(p.kind) && WellShaped(p) ==> r == ""
  {
    p.params.altid.GetOr("")
  }

  /** `get_pref`: the PREF parameter, or 100 without one. Section 5.3 of
      RFC 6350 ranks 1 as most preferred and 100 as least, so a property
      without PREF ranks with the least preferred. */
  function GetPref(p: Prop): (r: u8)
    requires DerivesPref(p.kind)
    ensures p.params.pref.None? ==> r == 100
    ensures p.params.pref.Some? ==> r == p.params.pref.value
  {
    p.params.pref.GetOr(100)
  }

  /** Every descriptor lists each field at most once, and exactly the
      structs that derive `Pref` declare a PREF field. */
  lemma FieldsDistinct(k: PropKind)
    ensures forall i, j :: 0 <= i < j < |Fields(k)| ==> Fields(k)[i] != Fields(k)[j]
    ensures DerivesPref(k) ==> PrefField in Fields(k)
  {
  }

  /** The display name is upper-case ASCII and, lower-cased, gives the name
      the decoder dispatches on, for every struct but CLIENTPIDMAP. */
  lemma DisplayNameDispatches(k: PropKind)
    ensures |DisplayName(k)| >= 1 && IsUpperWord(DisplayName(k))
    ensures k != CLIENTPIDMAP ==> Lower(DisplayName(k)) == DispatchName(k)
    ensures k == CLIENTPIDMAP ==> Lower(DisplayName(k)) == "clientpidmap"
  {
    if k == SOURCE || k == KIND || k == XML || k == FN || k == N || k == NICKNAME {
      PersonalNamesDispatch(k);
    } else if k == PHOTO || k == BDAY || k == ANNIVERSARY || k == GENDER || k == ADR || k == TEL {
      IdentityNamesDispatch(k);
    } else if k == EMAIL || k == IMPP || k == LANG || k == TZ || k == GEO || k == TITLE {
      ContactNamesDispatch(k);
    } else if k == ROLE || k == LOGO || k == ORG || k == MEMBER || k == RELATED || k == CATEGORIES {
      OrganizationalNamesDispatch(k);
    } else if k == NOTE || k == PRODID || k == REV || k == SOUND || k == UID || k == CLIENTPIDMAP {
      ExplanatoryNamesDispatch(k);
    } else {
      ResourceNamesDispatch(k);
    }
  }

  lemma PersonalNamesDispatch(k: PropKind)
    requires k == SOURCE || k == KIND || k == XML || k == FN || k == N || k == NICKNAME
    ensures |DisplayName(k)| >= 1 && IsUpperWord(DisplayName(k))
    ensures k != CLIENTPIDMAP ==> Lower(DisplayName(k)) == DispatchName(k)
    ensures k == CLIENTPIDMAP ==> Lower(DisplayName(k)) == "clientpidmap"
  {
  }

  lemma IdentityNamesDispatch(k: PropKind)
    requires k == PHOTO || k == BDAY || k == ANNIVERSARY || k == GENDER || k == ADR || k == TEL
    ensures |DisplayName(k)| >= 1 && IsUpperWord(DisplayName(k))
    ensures k != CLIENTPIDMAP ==> Lower(DisplayName(k)) == DispatchName(k)
    ensures k == CLIENTPIDMAP ==> Lower(DisplayName(k)) == "clientpidmap"
  {
  }

  lemma ContactNamesDispatch(k: PropKind)
    requires k == EMAIL || k == IMPP || k == LANG || k == TZ || k == GEO || k == TITLE
    ensures |DisplayName(k)| >= 1 && IsUpperWord(DisplayName(k))
    ensures k != CLIENTPIDMAP ==> Lower(DisplayName(k)) == DispatchName(k)
    ensures k == CLIENTPIDMAP ==> Lower(DisplayName(k)) == "clientpidmap"
  {
  }

  lemma OrganizationalNamesDispatch(k: PropKind)
    requires k == ROLE || k == LOGO || k == ORG || k == MEMBER || k == RELATED || k == CATEGORIES
    ensures |DisplayName(k)| >= 1 && IsUpperWord(DisplayName(k))
    ensures k != CLIENTPIDMAP ==> Lower(DisplayName(k)) == DispatchName(k)
    ensures k == CLIENTPIDMAP ==> Lower(DisplayName(k)) == "clientpidmap"
  {
  }

  lemma ExplanatoryNamesDispatch(k: PropKind)
    requires k == NOTE || k == PRODID || k == REV || k == SOUND || k == UID || k == CLIENTPIDMAP
    ensures |DisplayName(k)| >= 1 && IsUpperWord(DisplayName(k))
    ensures k != CLIENTPIDMAP ==> Lower(DisplayName(k)) == DispatchName(k)
    ensures k == CLIENTPIDMAP ==> Lower(DisplayName(k)) == "clientpidmap"
  {
  }

  lemma ResourceNamesDispatch(k: PropKind)
    requires k == URL || k == KEY || k == FBURL || k == CALADURI || k == CALURI
    ensures |DisplayName(k)| >= 1 && IsUpperWord(DisplayName(k))
    ensures k != CLIENTPIDMAP ==> Lower(DisplayName(k)) == DispatchName(k)
    ensures k == CLIENTPIDMAP ==> Lower(DisplayName(k)) == "clientpidmap"
  {
  }
}
