# vCard reader and writer, modelled in Dafny

This project models the decode/encode pipeline of the `vcard` crate, a
vCard 3.0/4.0 (RFC 6350) library, and proves properties of it. The model
covers these parts:

- **Byte source.** A `PushbackReader` is an inner reader plus a two-byte
  buffer of handed-back bytes (`pushback.dfy`).
- **Logical-line assembler and card assembler.** This is `VCardReader`
  (`reader.dfy`). It reads physical lines ending in CRLF under a length
  limit and unfolds continuation lines (section 3.2 of RFC 6350). It throws
  away malformed continuations and reports whether another property follows.
  `parse_vcard` runs the BEGIN, VERSION, properties, END state machine over
  the decoded properties.
- **Content-line decoder** (`property.dfy`, `parameter.dfy`):
  - the tokenizer that splits a line into group, name, parameters and value
    (section 3.3 of RFC 6350);
  - `parse_parameters` and `Parameter::from_str`;
  - backslash-escaped splitting;
  - the folding of parameters into one record per property;
  - the per-property value grammars (N, ADR, ORG, CATEGORIES, NICKNAME,
    GENDER, KIND, CLIENTPIDMAP, VERSION).
- **Alt-id containers** (`containers.dfy`). An `AltIDContainer` holds
  properties sharing one alt-id. A `MultiAltIDContainer` maps each alt-id to
  such a list. Both select a "preferred" value.
- **Card value** (`card.dfy`). This covers the set-once fields, the routing
  of each property kind to its container, and the card-level `Display`.
- **Per-property serializer** (`serializer.dfy`, `model.dfy`). This is the
  `Display` that the `#[vcard]` attribute generates for every property
  struct, with the `AltID`/`Pref` getters. It is written as a descriptor
  table: `Model.Fields` lists, for each property kind, its parameter fields
  in declaration order.
- **Round trips** (`roundtrip.dfy`). These prove that decoding the line a
  property is written as gives that property back, under stated conditions.
  They also record, as lemmas, the inputs on which it does not.
- **Card round trip** (`cardtrip.dfy`). This proves that `parse_vcard`, fed
  the UTF-8 bytes of the text a valid card is written as, returns that same
  card. The proof has three layers. First, the text is a list of lines,
  each ended by CRLF. Second, the reader takes such lines back one by one,
  each as the property it decodes to. Third, adding the decoded properties
  in the written order rebuilds every slot and alt-id bucket of the card.
  It holds for cards whose properties are printable in the sense of the
  per-line round trips, and whose written lines fit the reader (see
  "Left out").
- **Shared pieces.** `strings.dfy` holds lower-casing, splitting and joining,
  `u8` parsing and printing, byte order of strings and UTF-8. `errors.dfy`
  holds the error variants.

The model follows the code as written, including where it departs from
RFC 6350 or from its own comments:

- `get_prefered_value` compares alt-ids, not PREF values. In a homogeneous
  container it therefore returns the first member added
  (`Containers.PreferredIsFirst`).
- The CLIENTPIDMAP branch of the decoder is keyed on `clientidmap`. A written
  CLIENTPIDMAP line is therefore refused with `InvalidName`
  (`RoundTrip.ClientPidMapRefused`).
- Properties that are not proprietary silently drop parameters they have no
  field for. No "unknown parameter" error is raised.
- A proprietary (`X-`) property does not keep its parameters as read. The
  parameters that stay proprietary come first. The recognised ones follow,
  one per key, in the fixed order ALTID, PID, MEDIATYPE, TZ, GEO, SORT-AS,
  CALSCALE, LABEL, TYPE, PREF, LANGUAGE. VALUE is parsed and then dropped.
  Its parameters therefore read back re-ordered, and without VALUE
  (`RoundTrip.ProprietaryParametersRegrouped`,
  `RoundTrip.ProprietaryValueDropped`,
  `RoundTrip.ProprietaryParametersReordered`).
- The serializer writes a proprietary VALUE type as the word `Proprietary`.
  It writes SORT-AS quoted, and never writes LABEL. The decoder reads none of
  these three back to the same value (`RoundTrip.ExtensionValueTypeRefused`,
  `RoundTrip.SortAsKeepsQuotes`, `RoundTrip.LabelNotWritten`).
- `Kind` writes a proprietary kind as `Proprietary`
  (`RoundTrip.ProprietaryKindRenamed`).
- The older `model.rs` snapshot names the URL struct `VcardURL` and types URI
  fields as `url::Url`. The model follows `property.rs`: the struct is `Url`,
  it is written as `URL`, and every payload is a string.

## Model

| member | source | states |
|---|---|---|
| Strings.LowerChar | vcard/src/models/parameter.rs:64 | lower-casing keeps ASCII in ASCII, and yields an ASCII letter only from a letter of either case or the Kelvin sign |
| Strings.LowerAppend | vcard/src/models/property.rs:232 | `to_lowercase` works character by character: lower-casing a concatenation concatenates the lower-cased parts |
| Strings.Join | vcard_macro/src/lib.rs:201-223 | `join` of one piece is that piece, and `join` of no pieces is empty |
| Strings.FindFrom | vcard/src/models/property.rs:154 | finds the first occurrence of a character at or after a position; `None` only when there is none |
| Strings.JoinFree | vcard_macro/src/lib.rs:201-223 | joining pieces that avoid a character with a separator that avoids it gives text that avoids it |
| Strings.Split | vcard/src/models/parameter.rs:86 | `split` always yields at least one piece, and no piece contains the separator |
| Strings.SplitOnce | vcard/src/models/parameter.rs:60-63 | `split_once` fails exactly when the separator is absent; otherwise the input is the head, the separator and the tail, and the head avoids the separator |
| Strings.FindFromFree | vcard/src/models/property.rs:154 | no occurrence after a position means the search reports none |
| Strings.FindAfterFree | vcard/src/models/parameter.rs:60 | the first separator is found right after a head that avoids it |
| Strings.SplitJoin | vcard/src/models/parameter.rs:86 | splitting the join of separator-free pieces gives the pieces back |
| Strings.JoinSplit | vcard/src/models/parameter.rs:86 | joining the pieces of a split with the separator gives the input back |
| Strings.TrimEndDots | vcard/src/models/property.rs:168-170 | `trim_end_matches(".")` leaves a prefix that does not end in '.', and everything removed is '.' |
| Strings.TrimNul | vcard/src/models/property.rs:187 | `trim_matches('\0')` leaves no NUL at either end and changes a NUL-free name not at all |
| Strings.AccumulateSpec | vcard/src/models/parameter.rs:67 | digit accumulation succeeds exactly when every character is a digit and the value stays within 255, and then yields that value |
| Strings.ParseU8Spec | vcard/src/models/parameter.rs:67 | `u8::from_str` accepts exactly an optional '+' followed by at least one digit with value at most 255; the empty string is the `Empty` error |
| Strings.DigitChar | vcard/src/models/parameter.rs:28 | a digit value is printed as a digit character that reads back as that value |
| Strings.ShowNat | vcard/src/models/parameter.rs:28 | a number is printed as a non-empty run of digits |
| Strings.HornerShowNat | vcard/src/models/parameter.rs:28 | reading the printed digits of a number gives the number |
| Strings.ParseShowU8 | vcard/src/models/parameter.rs:67 | every `u8` printed by `Display` parses back to itself |
| Strings.StrLessIrreflexive | vcard/src/models/containers.rs:144 | the `>` comparison of alt-ids never holds between equal strings |
| Strings.StrLessTransitive | vcard/src/models/containers.rs:144 | the string order used to compare alt-ids is transitive |
| Strings.StrLessTotal | vcard/src/models/containers.rs:63 | any two different alt-ids are ordered one way or the other |
| Strings.StrLessAsymmetric | vcard/src/models/containers.rs:63 | two alt-ids are never each smaller than the other |
| Strings.SequenceLength | vcard/src/reader.rs:222-225 | a UTF-8 sequence is read as at most four bytes and never past the end of the input |
| Strings.EncodeChar | vcard/src/reader.rs:222-225 | a character is one to four UTF-8 bytes: one byte exactly for ASCII, and then the byte is its code |
| Strings.Utf8Encode | vcard/tests/integration_test.rs:281-282 | a string's UTF-8 form is at least as long as the string |
| Strings.Utf8EncodeAppend | vcard/tests/integration_test.rs:281-282 | encoding a concatenation concatenates the encodings |
| Strings.DecodeEncodeChar | vcard/src/reader.rs:222-225 | decoding the encoding of one character reads back exactly its bytes and gives the character |
| Strings.Utf8RoundTrip | vcard/src/reader.rs:222-225 | `String::from_utf8` of the bytes of any string succeeds and gives the string back |
| Strings.EncodeCharControl | vcard/src/reader.rs:252-255 | the first byte of an encoded character is CR, LF, space or tab exactly when the character is |
| Strings.DecodeAscii | vcard/src/reader.rs:207 | bytes below 0x80 decode to the characters with those codes, one per byte |
| Parameters.ValueDataTypeRoundTrip | vcard/src/models/parameter.rs:145-193 | whatever `ValueDataType::from_str` returns is written back as the text it was read from, and every such value reads back from its text |
| Parameters.DigitsFreeOf | vcard/src/models/parameter.rs:105-113 | a printed number contains no separator such as '.' |
| Parameters.PidRoundTrip | vcard/src/models/parameter.rs:69-84 | decoding the PID text that `Display` writes gives the same `Pid`, with or without a second digit |
| Parameters.ReadKeyed | vcard/src/models/parameter.rs:60-65 | a segment splits at its first '=', and the key is matched lower-cased |
| Parameters.ParameterRoundTrip | vcard/src/models/parameter.rs:22-95 | every parameter that is not LABEL or proprietary, and whose texts contain no ',' where it would split, is read back as itself from its `Display` text |
| Parameters.KeyedRoundTrip | vcard/src/models/parameter.rs:64-92 | the key `Display` writes is recognised in lower case, and its value decodes to the same parameter |
| Parameters.KeyedTextRoundTrip | vcard/src/models/parameter.rs:66-68 | LANGUAGE, ALTID and MEDIATYPE values are kept verbatim |
| Parameters.KeyedLateTextRoundTrip | vcard/src/models/parameter.rs:87-91 | CALSCALE, GEO and TZ values are kept verbatim |
| Parameters.KeyedCodedRoundTrip | vcard/src/models/parameter.rs:67-85 | VALUE, PREF and PID values are decoded back to the value that was written |
| Parameters.KeyedListRoundTrip | vcard/src/models/parameter.rs:86-89 | TYPE and SORT-AS lists whose items avoid ',' are split back into the same list |
| Parameters.LabelReadsBackAsProprietary | vcard/src/models/parameter.rs:64-92 | there is no `label` arm, so a written LABEL parameter is read back as a proprietary one holding its text |
| Parameters.ParameterWithoutEquals | vcard/src/models/parameter.rs:60-63 | a segment without '=' fails with `InvalidLine("parameter has no = sign", segment)` |
| Model.KindValueRoundTrip | vcard/src/models/model.rs:44-57 | each named kind reads back from its token; a proprietary kind's token is `Proprietary`, read back as a proprietary kind of that name |
| Model.SexRoundTrip | vcard/src/models/model.rs:59-94 | each sex reads back from its token, in either case |
| Model.ParseSexSpec | vcard/src/models/model.rs:80-94 | `Sex::from_str` accepts exactly m, f, o, n, u in either case; otherwise it fails with `InvalidGenderError(s)`; an accepted token is the lower-cased input |
| Model.GetAltId | vcard_macro/src/lib.rs:58-66 | the alt-id is the ALTID parameter when present and "" when absent, and "" for a kind that has no alt-id field |
| Model.GetPref | vcard_macro/src/lib.rs:77-84 | the preference is the PREF parameter when present and 100 when absent |
| Model.FieldsDistinct | vcard_macro/src/lib.rs:104-199 | each kind's parameter fields are listed once each, and every kind with a `Pref` getter has a PREF field |
| Model.DisplayNameDispatches | vcard_macro/src/lib.rs:97 | every written name is a non-empty upper-case word, and lower-cased it is the name the decoder dispatches on, except CLIENTPIDMAP |
| Properties.RunEnd | vcard/src/models/property.rs:154 | the `[^;:]+` run ends at the first ';' or ':' (or at a line end) |
| Properties.GroupEnd | vcard/src/models/property.rs:154 | the optional group ends at the last '.' of the run, leaving a non-empty name after it |
| Properties.MatchAt | vcard/src/models/property.rs:154 | a match found at a position has the shape of the pattern's captures |
| Properties.SearchFrom | vcard/src/models/property.rs:154 | the leftmost match has the shape of the pattern's captures |
| Properties.Tokenize | vcard/src/models/property.rs:154-160 | a tokenized line always has a name and a value |
| Properties.LineRuns | vcard/src/models/property.rs:154 | in a written line, the name run ends where the parameters start, the first ':' after it ends the parameters, and the value holds no line break |
| Properties.LineGroup | vcard/src/models/property.rs:168-170 | the group of a written line is found at its '.', and trimming that '.' gives the group back |
| Properties.MatchAtStart | vcard/src/models/property.rs:160-186 | a line whose name run starts at its first character is tokenized into group, name, parameters and value at the positions of the run, the '.' and the ':' |
| Properties.TokenizeLine | vcard/src/models/property.rs:160-186 | tokenizing "group." + name + parameters + ":" + value gives exactly those four parts back, with absent parameters as `None` |
| Properties.EscapedSplit | vcard/src/models/property.rs:126-151 | the character loop yields the pieces of the escaped-split specification |
| Properties.EscapedFromCount | vcard/src/models/property.rs:126-151 | the scan adds one piece per unescaped separator |
| Properties.EscapedPiecesCount | vcard/src/models/property.rs:126-151 | `escaped_split` yields one piece more than there are unescaped separators |
| Properties.EscapedFromJoin | vcard/src/models/property.rs:126-151 | without backslashes, the scan's pieces joined by the separator are the text scanned |
| Properties.EscapedPiecesJoin | vcard/src/models/property.rs:126-151 | without backslashes, joining the pieces with the separator gives back the input |
| Properties.EscapeFree | vcard/src/models/property.rs:126-151 | text without separators or backslashes needs no escaping |
| Properties.EscapedText | vcard/src/models/property.rs:132-146 | an escaped piece is scanned into the buffer as its original text |
| Properties.EscapedJoinFrom | vcard/src/models/property.rs:126-151 | scanning escaped pieces joined by the separator yields the pieces, the first appended to the buffer |
| Properties.EscapedSplitRoundTrip | vcard/src/models/property.rs:126-151 | splitting the separator-join of backslash-escaped pieces gives the pieces back, for any text |
| Properties.EscapedSplitJoin | vcard/src/models/property.rs:126-151 | pieces free of the separator and of backslashes come back unchanged from split-after-join |
| Properties.TrimLeadingSemicolons | vcard/src/models/property.rs:102 | `trim_start_matches(";")` removes only ';' and leaves text that does not start with one |
| Properties.ParseParameters | vcard/src/models/property.rs:101-124 | the byte loop yields the parameters of the specification function, errors included |
| Properties.ParseEach | vcard/src/models/property.rs:106-123 | a successful parse yields one parameter per segment |
| Properties.ScanText | vcard/src/models/property.rs:106-118 | text without ';' is appended to the current segment and its last byte becomes the previous byte |
| Properties.ScanSegments | vcard/src/models/property.rs:106-123 | scanning segments joined by ';', none ending in '\\', parses each segment in turn |
| Properties.TrimRendered | vcard/src/models/property.rs:102 | the leading ';' of a written parameter section is what the trim removes |
| Properties.ParametersOfSegments | vcard/src/models/property.rs:101-124 | a section ";s1;...;sn" of non-empty segments not ending in '\\' is parsed segment by segment |
| Properties.TrailingSemicolonRefused | vcard/src/models/property.rs:119-123 | a trailing ';' leaves an empty last segment, which fails with `InvalidLine("parameter has no = sign", "")` |
| Properties.EachSnocEmpty | vcard/src/models/property.rs:119-123 | an empty segment after valid ones makes the whole list fail |
| Properties.EscapedSemicolonKept | vcard/src/models/property.rs:107-109 | "\\;" does not split: the segment keeps the backslash and the ';' |
| Properties.EscapedSemicolonText | vcard/src/models/property.rs:102 | trimming leaves an escaped ';' in place |
| Properties.ScanEscapedTail | vcard/src/models/property.rs:109-117 | after a '\\', a ';' is added to the segment instead of ending it |
| Properties.FoldParameters | vcard/src/models/property.rs:207-229 | the folding loop yields the record of the specification function |
| Properties.LastFilling | vcard/src/models/property.rs:207-229 | the last parameter filling a field is one of the parameters, of that field; none exists only when no parameter fills it |
| Properties.ProprietaryIn | vcard/src/models/property.rs:227 | the collected proprietary parameters are proprietary and come from the input |
| Properties.FoldFromSnoc | vcard/src/models/property.rs:207-229 | folding one more parameter is one more step of the loop |
| Properties.FieldValue | vcard/src/models/property.rs:194-206 | a field's stored value is a parameter of that field |
| Properties.FoldStepFills | vcard/src/models/property.rs:208-226 | a step overwrites exactly the field of its parameter and keeps the others |
| Properties.FoldKeepsLast | vcard/src/models/property.rs:207-229 | after folding, each single-valued field holds the last parameter of that field (a later one overwrites an earlier one) |
| Properties.FoldConcatenatesTypes | vcard/src/models/property.rs:217-223 | TYPE lists are concatenated in order, and the field stays absent when no TYPE occurs |
| Properties.FoldKeepsProprietary | vcard/src/models/property.rs:227 | proprietary parameters are kept in input order |
| Properties.TypesAbsent | vcard/src/models/property.rs:201 | with no TYPE parameter the collected type list is empty |
| Properties.NonEmpty | vcard/src/models/property.rs:93-99 | `filter_and_transform` keeps exactly the non-empty items, in order |
| Properties.PositionsOf | vcard/src/models/property.rs:263-294 | an N or ADR value always yields exactly 5 or 7 positions |
| Properties.ValueOf | vcard/src/models/property.rs:243-606 | a decoded value has the shape its property kind requires |
| Properties.DecodeValue | vcard/src/models/property.rs:243-606 | the per-name value decoder yields the value of the specification function, errors included |
| Properties.SplitPositions | vcard/src/models/property.rs:263-285 | the positional split loop yields exactly the positions of the specification |
| Properties.BuildProp | vcard/src/models/property.rs:243-606 | a property is built exactly when its value decodes; it is well shaped, of the dispatched kind, and keeps the group where the kind has one |
| Properties.KindNamedDispatch | vcard/src/models/property.rs:232 | every kind is reached by its own dispatch name, which is not begin, end or version |
| Properties.PropertyFromStr | vcard/src/models/property.rs:159-667 | `Property::from_str` computes the decoding of the specification function, errors included |
| Serializer.ParamsTextByField | vcard_macro/src/lib.rs:104-199 | the parameter section is written field by field, in declaration order |
| Serializer.DefaultNDisplay | vcard/src/models/model.rs:701-702 | a default N is written "N:;;;;\r\n" |
| Serializer.FiveEmptyPositions | vcard_macro/src/lib.rs:218-223 | five empty N positions are written as four ';' |
| Serializer.SegmentsOfEmptyFields | vcard_macro/src/lib.rs:104-199 | absent fields write no parameters |
| Serializer.NSortAsDisplay | vcard/src/models/model.rs:703-704 | an N with SORT-AS is written with the comma-joined list in quotes |
| Serializer.EmailDisplay | vcard/src/models/model.rs:712-725 | an EMAIL with group and ALTID is written "group.EMAIL;ALTID=a:value\r\n" |
| RoundTrip.ItemsRoundTrip | vcard/src/models/property.rs:448-471 | ','- or ';'-joined items without separators or backslashes split back into the same items, with or without dropping empty ones |
| RoundTrip.PositionsRoundTrip | vcard/src/models/property.rs:263-294 | writing N or ADR positions and reading them back gives the same positions |
| RoundTrip.GenderRoundTrip | vcard/src/models/property.rs:319-337 | a GENDER written with an identity reads back as itself, with or without a sex |
| RoundTrip.SexTokenPlain | vcard/src/models/model.rs:59-71 | each sex token is one character and holds no ';' |
| RoundTrip.GenderWithoutIdentityRefused | vcard_macro/src/lib.rs:224-236 | a GENDER written without identity has no ';' and is refused with `InvalidSyntax` |
| RoundTrip.ProprietaryKindRenamed | vcard/src/models/model.rs:31-57 | a proprietary KIND is written as `Proprietary` and so reads back with that name |
| RoundTrip.EmptyNicknameGainsItem | vcard/src/models/property.rs:286-295 | an empty NICKNAME list reads back as one empty item, because empties are kept |
| RoundTrip.ValueRoundTrip | vcard_macro/src/lib.rs:201-245 | for every kind, a well-shaped printable value written by the serializer is decoded back to itself |
| RoundTrip.TypeParams | vcard_macro/src/lib.rs:152-159 | TYPE is written as one parameter per element |
| RoundTrip.Shown | vcard/src/models/parameter.rs:22-42 | each parameter is written as one segment |
| RoundTrip.FieldSegmentsShown | vcard_macro/src/lib.rs:104-199 | each field's written parameters are the `Display` texts of the parameters it stands for |
| RoundTrip.SegmentsShown | vcard_macro/src/lib.rs:104-199 | a kind's written parameter segments are the `Display` texts of its parameter list |
| RoundTrip.ParseShown | vcard/src/models/parameter.rs:56-95 | re-readable parameters are read back from their texts, in order |
| RoundTrip.ParamListRereadable | vcard/src/models/parameter.rs:56-95 | every parameter the serializer writes for a printable record is re-readable |
| RoundTrip.KeySafe | vcard/src/models/property.rs:101-124 | parameter keys contain no ';', ':' or '\\' |
| RoundTrip.ValueSafe | vcard/src/models/property.rs:101-124 | written parameter values of printable records contain no ';', ':' or '\\' |
| RoundTrip.TokenSafe | vcard/src/models/parameter.rs:117-143 | the registered value-type tokens are safe segment text |
| RoundTrip.ShownSafe | vcard/src/models/property.rs:101-124 | a written parameter is a non-empty segment that the parameter scanner keeps whole |
| RoundTrip.SegmentsSafe | vcard/src/models/property.rs:101-124 | every written parameter segment of a printable record is non-empty and safe |
| RoundTrip.LastFillingAppend | vcard/src/models/property.rs:207-229 | the last parameter of a field in a concatenation comes from the later part when it has one |
| RoundTrip.TypesInAppend | vcard/src/models/property.rs:217-223 | TYPE lists of a concatenation are concatenated |
| RoundTrip.TypesInTypeParams | vcard/src/models/property.rs:217-223 | one TYPE per element folds back into the element list |
| RoundTrip.TypeParamsFill | vcard/src/models/property.rs:207-229 | written TYPE parameters fill only the TYPE field |
| RoundTrip.FieldParamsFill | vcard/src/models/property.rs:207-229 | each field's written parameters fill exactly that field, with its value |
| RoundTrip.ParamListFill | vcard/src/models/property.rs:207-229 | a written parameter list fills exactly the fields it lists, with their values |
| RoundTrip.ParamListTypes | vcard/src/models/property.rs:217-223 | a written parameter list folds back into the record's TYPE list |
| RoundTrip.FieldValuesDetermine | vcard/src/models/property.rs:194-206 | two records with the same field values are equal |
| RoundTrip.FoldParamList | vcard/src/models/property.rs:207-229 | folding the parameters written for a record gives the record back |
| RoundTrip.ValueTextOneLine | vcard_macro/src/lib.rs:201-245 | a printable value is written without a line break |
| RoundTrip.UpperWordIsName | vcard/src/models/property.rs:154 | an upper-case name is a valid name run for the tokenizer and holds no NUL |
| RoundTrip.SectionRoundTrip | vcard/src/models/property.rs:101-124 | a written parameter section is a valid section; it is empty exactly when there are no parameters; otherwise `parse_parameters` gives back the written list |
| RoundTrip.LineDispatch | vcard/src/models/property.rs:159-232 | decoding a written line dispatches on its name with the folded written parameters and the written value |
| RoundTrip.PropRoundTrip | vcard/src/models/property.rs:159-606 | decoding the line any printable property is written as gives that property back |
| RoundTrip.ClientPidMapRefused | vcard/src/models/property.rs:530 | a written CLIENTPIDMAP line is refused with `InvalidName`, because the branch is keyed on `clientidmap` |
| RoundTrip.ClientPidMapUnnamed | vcard/src/models/property.rs:530 | no kind is dispatched on `clientpidmap` |
| RoundTrip.NotExtensionName | vcard/src/models/property.rs:607-613 | a name not starting with 'X' or 'x' is not an extension name |
| RoundTrip.DispatchUnknown | vcard/src/models/property.rs:607-613 | an unknown name that is not an extension fails with `InvalidName(name, line)` |
| RoundTrip.SortAsKeepsQuotes | vcard_macro/src/lib.rs:175-180 | SORT-AS is written quoted, and the quotes are read back as part of the item, so the list changes |
| RoundTrip.ExtensionValueTypeRefused | vcard_macro/src/lib.rs:131-136 | a proprietary VALUE type is written as `Proprietary` and refused with `UnknownType` |
| RoundTrip.ValueKeyRead | vcard/src/models/parameter.rs:85 | a VALUE segment decodes to its value type, or fails with the value type's error |
| RoundTrip.UnregisteredValueType | vcard/src/models/parameter.rs:184-189 | an upper-case token that is not an extension name is `UnknownType` |
| RoundTrip.LabelNotWritten | vcard_macro/src/lib.rs:104-199 | the LABEL field has no arm in the serializer, so the written line does not depend on it |
| RoundTrip.ProprietaryParameterChanged | vcard/src/models/parameter.rs:37 | a proprietary parameter is written as its bare text and does not read back as itself |
| RoundTrip.ExtensionNotRegistered | vcard/src/models/property.rs:232 | an "X-" name is not one of the registered names |
| RoundTrip.ProprietaryRoundTrip | vcard/src/models/property.rs:615-663 | for a proprietary property whose parameters each read back as themselves, decoding its written line gives it back exactly when its parameters are already in the regrouped order |
| RoundTrip.ParameterTextsShown | vcard/src/models/model.rs:567-569 | a proprietary property writes each parameter's `Display` after a ';' |
| RoundTrip.ProprietarySection | vcard/src/models/property.rs:101-124 | that parameter text is a valid section, empty exactly when there are no parameters, and parsed segment by segment |
| RoundTrip.DispatchExtension | vcard/src/models/property.rs:607-663 | an extension name yields a proprietary property whose parameters are the proprietary ones followed by the recognised ones in the fixed re-push order |
| RoundTrip.DecodeCaptured | vcard/src/models/property.rs:159-232 | a line the pattern captures is dispatched on its NUL-trimmed name with its parsed parameters folded |
| RoundTrip.ProprietaryLineRead | vcard/src/models/property.rs:615-663 | a proprietary line with printable parameter segments is read back with its parsed parameters regrouped: proprietary ones first, then `Reappended` of the fold |
| RoundTrip.ProprietaryParametersRegrouped | vcard/src/models/property.rs:615-663 | parameters that read back as themselves return as `Reappended` of their fold: none proprietary, VALUE lost, key order fixed |
| RoundTrip.NoProprietaryIn | vcard/src/models/property.rs:227 | parameters that read back as themselves contribute no proprietary parameter to the fold |
| RoundTrip.ProprietaryValueDropped | vcard/src/models/property.rs:615-663 | a VALUE parameter on an `X-` line is dropped |
| RoundTrip.ProprietaryParametersReordered | vcard/src/models/property.rs:615-663 | LANGUAGE written before ALTID on an `X-` line is read back after it |
| Containers.AltAddKeepsHomogeneous | vcard/src/models/containers.rs:98-118 | adding succeeds exactly on an empty list or a matching alt-id; then the item is appended and the list stays homogeneous; otherwise the error is `InvalidAltId(first's, item's)` |
| Containers.PreferredStep | vcard/src/models/containers.rs:139-146 | one step keeps the current candidate or takes the item |
| Containers.PreferredIsLeast | vcard/src/models/containers.rs:136-150 | the preferred value is absent exactly for an empty list; otherwise it is a member whose alt-id no other member's is below |
| Containers.PreferredIsFirst | vcard/src/models/containers.rs:136-150 | in a homogeneous list the preferred value is the first member, whatever the PREF values |
| Containers.ScanPreferred | vcard/src/models/containers.rs:136-150 | the selection loop yields the preferred value of the specification |
| Containers.ShowAllAppend | vcard/src/models/containers.rs:77-87 | members are written in insertion order: adding one appends its line |
| Containers.AltIDContainer.constructor | vcard/src/models/containers.rs:90-92 | a new container is empty |
| Containers.AltIDContainer.FromVec | vcard/src/models/containers.rs:94-96 | `from_vec` holds the given members |
| Containers.AltIDContainer.AddValue | vcard/src/models/containers.rs:98-118 | adds as the specification says and leaves the container unchanged on error; keeps homogeneity; a success appends the item's line to the display |
| Containers.AltIDContainer.GetPreferredValue | vcard/src/models/containers.rs:136-150 | returns the preferred value of the specification |
| Containers.MultiAddNeverFails | vcard/src/models/containers.rs:27-38 | on valid buckets adding never fails; it appends to the item's alt-id bucket (creating it when needed), leaves other buckets untouched, and keeps every bucket valid |
| Containers.MinKey | vcard/src/models/containers.rs:53-69 | the smallest key is one of the keys |
| Containers.MinKeyLeast | vcard/src/models/containers.rs:53-69 | no key is below the smallest key |
| Containers.MultiPreferredIsMinKey | vcard/src/models/containers.rs:53-69 | the selection over buckets yields the first member of the bucket with the smallest key, or none without buckets |
| Containers.PreferredIndependentOfOrder | vcard/src/models/containers.rs:53-69 | the preferred value is the same for every iteration order; it is absent exactly without buckets, and otherwise it heads the bucket with the least key |
| Containers.ShowBucketsSplit | vcard/src/models/containers.rs:13-20 | writing the buckets in an order writes any split of that order part after part |
| Containers.ShowBucketsSame | vcard/src/models/containers.rs:13-20 | the output depends only on the buckets visited |
| Containers.ShowBucketsAt | vcard/src/models/containers.rs:13-20 | each bucket's lines appear at its place in the iteration order |
| Containers.ShowAfterAdd | vcard/src/models/containers.rs:27-38 | after adding, the order still enumerates the buckets, and the only change in the output is the item's line at the end of its bucket |
| Containers.MultiAltIDContainer.constructor | vcard/src/models/containers.rs:23-25 | a new container has no buckets |
| Containers.MultiAltIDContainer.AddValue | vcard/src/models/containers.rs:27-38 | adds as the specification says, never fails on a valid container, and keeps it valid |
| Containers.MultiAltIDContainer.GetPreferredValue | vcard/src/models/containers.rs:53-69 | the loop over the buckets in iteration order yields the preferred value of the specification |
| Cards.DefaultVersion | vcard/src/models/model.rs:102-108 | the default version is written "4.0" |
| Cards.AddProp | vcard/src/reader.rs:112-147 | routing a property never changes the card's version or its proprietary properties |
| Cards.AddSingle | vcard/src/reader.rs:30-40 | a set-once field already set fails with `InvalidCardinality(1, field name)`; otherwise it is set and the others are kept |
| Cards.AddAlt | vcard/src/reader.rs:116-120 | N, BDAY and ANNIVERSARY fail exactly on an alt-id that differs from the first stored; the error names both alt-ids; otherwise the property is appended |
| Cards.AddMulti | vcard/src/reader.rs:112-146 | adding to a multi-container field always succeeds; the property ends its alt-id bucket and the field stays valid |
| Cards.MultiAddKeepsKind | vcard/src/models/containers.rs:27-38 | a field's buckets keep holding only properties of that field's kind |
| Cards.AddPropKeepsValid | vcard/src/reader.rs:112-147 | routing fails exactly on a second set-once property or an alt-id mismatch, and a success keeps the card valid |
| Cards.DisplayOrder | vcard/src/models/model.rs:644-683 | the card's fields are written in the fixed order of the 35 kinds |
| Cards.DisplayOrderCovers | vcard/src/models/model.rs:644-683 | every kind has a place in the display order |
| Cards.DisplayOrderDistinct | vcard/src/models/model.rs:644-683 | no kind is written twice |
| Cards.ShowSlotsEmpty | vcard/src/models/model.rs:629-637 | absent fields write nothing |
| Cards.EmptyCardDisplay | vcard/src/models/model.rs:639-689 | an empty card is written as BEGIN, VERSION and END lines only |
| Cards.ShowProprietariesAppend | vcard/src/models/model.rs:684-686 | proprietary properties are written in list order |
| Pushback.EofError | vcard/src/reader.rs:157-164 | running out of bytes is an I/O error: the inner failure when it fails, end of file otherwise |
| Pushback.PushbackReader.constructor | vcard/src/reader.rs:50-55 | a new reader has nothing handed back and delivers the input |
| Pushback.PushbackReader.ReturnByte | vcard/src/reader.rs:281-288 | the byte is delivered after those already handed back; a third restarts the buffer, losing the two before it |
| Pushback.PushbackReader.ReturnBytes | vcard/src/reader.rs:290-293 | the two bytes replace what was handed back and are delivered next |
| Pushback.PushbackReader.Read | vcard/src/reader.rs:295-315 | a read delivers a prefix of what is pending; a read with bytes handed back delivers only those; a one-byte read shifts the buffer; it fails only when nothing is pending and the inner reader fails |
| Pushback.PushbackReader.ReadExact | vcard/src/reader.rs:251-254 | `read_exact` delivers exactly the next n pending bytes; when fewer remain it consumes them all and reports `EofError` |
| Reader.EndLine | vcard/src/reader.rs:207 | the tolerated unterminated line is nine bytes without CR |
| Reader.EndLineText | vcard/src/reader.rs:207 | those bytes decode to "END:VCARD" |
| Reader.Physical | vcard/src/reader.rs:241-264 | reading a physical line only extends the buffer, by at most the bytes consumed; success keeps the buffer within the limit and consumes at least the CRLF |
| Reader.PhysicalReadsLine | vcard/src/reader.rs:252-256 | a line without CR followed by CRLF is appended to the buffer, the CRLF is consumed and not stored |
| Reader.PhysicalTooLong | vcard/src/reader.rs:245-249 | once the buffer would exceed the limit, the read fails with `MaxLineLengthExceeded(max)` |
| Reader.PhysicalRunsOut | vcard/src/reader.rs:251 | input ending before CRLF leaves the bytes read in the buffer and reports `EofError` |
| Reader.Inspect | vcard/src/reader.rs:152-185 | with fewer than two bytes left: no more content, or the inner failure; otherwise a new property or a discard pushes both bytes back, and a continuation pushes back the second |
| Reader.Continue | vcard/src/reader.rs:217-232 | continuation reading only consumes input, and the discard buffer only grows |
| Reader.Logical | vcard/src/reader.rs:194-233 | a logical line consumes input on success, and the discard buffer only grows |
| Reader.ContinueFold | vcard/src/reader.rs:228-230 | a fold (blank, then a non-blank byte) appends the folded line without its fold character |
| Reader.UnfoldTwoLines | vcard/src/reader.rs:194-233 | a line and its continuation are read as one logical line, with `more` true when a property follows |
| Reader.EndWithoutNewline | vcard/src/reader.rs:198-215 | "END:VCARD" without CRLF at the end of input is accepted, with `more` false |
| Reader.TruncatedLineRefused | vcard/src/reader.rs:198-215 | any other unterminated last line fails with the end-of-file error |
| Reader.DiscardLimit | vcard/src/reader.rs:234-239 | the discard buffer is never cleared, so once it exceeds the limit a discard fails with `MaxLineLengthExceeded` |
| Reader.ReadProp | vcard/src/reader.rs:190-193 | reading a property consumes input on success |
| Reader.CardLoopValid | vcard/src/reader.rs:90-149 | the property loop keeps the card valid and its version unchanged |
| Reader.CardStepValid | vcard/src/reader.rs:91-148 | one iteration keeps the card valid and its version unchanged |
| Reader.HandleValid | vcard/src/reader.rs:92-147 | END returns the card unchanged; any other property that is accepted leaves a valid card with the same version |
| Reader.ParseCardValid | vcard/src/reader.rs:61-150 | a parsed card is valid, the first property read succeeded, and the second was the VERSION the card carries |
| Reader.VCardReader.constructor | vcard/src/reader.rs:44-46 | a new reader has the default limit of 5000 and an empty discard buffer |
| Reader.VCardReader.WithLimit | vcard/src/reader.rs:49-59 | a reader with a given limit |
| Reader.VCardReader.ReadPhysicalLine | vcard/src/reader.rs:241-264 | the loop computes the physical-line specification |
| Reader.VCardReader.InspectNextLine | vcard/src/reader.rs:152-185 | the peek computes the inspection specification |
| Reader.VCardReader.DiscardLine | vcard/src/reader.rs:234-239 | discarding reads a physical line into the discard buffer |
| Reader.VCardReader.ReadLogicalLine | vcard/src/reader.rs:194-233 | the loop computes the logical-line specification |
| Reader.VCardReader.ReadProperty | vcard/src/reader.rs:190-193 | reads a logical line and decodes it as the property specification does |
| Reader.VCardReader.ParseVcard | vcard/src/reader.rs:61-89 | checks BEGIN and VERSION and runs the property loop as the card specification does |
| Reader.VCardReader.ReadCardBody | vcard/src/reader.rs:90-149 | the property loop computes the card specification |
| CardRoundTrip.ParseWritten | vcard/tests/integration_test.rs:280-284 | reading back the bytes of the text a valid card is written as gives exactly that card, when its properties are printable and every written line fits the reader |
| CardRoundTrip.ShowCardLines | vcard/src/models/model.rs:639-689 | a card's text is BEGIN, VERSION, the registered properties kind after kind, the proprietary properties and END, each line ended by CRLF |
| CardRoundTrip.EncodeCrlf | vcard/tests/integration_test.rs:281-282 | the UTF-8 bytes of CRLF-ended lines are each line's bytes followed by CR LF |
| CardRoundTrip.ReadLine | vcard/src/reader.rs:194-233 | a line without CR, not starting with a blank and within the limit is read back unchanged as one logical line; `more` is true exactly when another such line follows |
| CardRoundTrip.ReadPropLine | vcard/src/reader.rs:190-193 | such a line is read as the property it decodes to, with the stream left at the next line |
| CardRoundTrip.LoopStep | vcard/src/reader.rs:90-147 | a property the card takes without ending it moves the loop on to the next stream with the card it gives |
| CardRoundTrip.LoopRun | vcard/src/reader.rs:90-149 | a run of such reads and steps carries the loop from the first stream and card to the last |
| CardRoundTrip.LoopTyped | vcard/src/reader.rs:112-146 | the lines of registered properties add them to the card one by one, in order |
| CardRoundTrip.LoopProprietary | vcard/src/reader.rs:147 | the lines of proprietary properties append them to the card's proprietary list, in order |
| CardRoundTrip.LoopEnd | vcard/src/reader.rs:105-110 | END:VCARD as the last line returns the card built so far |
| CardRoundTrip.ParseStart | vcard/src/reader.rs:61-89 | BEGIN:VCARD then a VERSION, each with more to come, start the loop from the empty card of that version |
| CardRoundTrip.ParseFrom | vcard/src/reader.rs:61-89 | the written BEGIN and VERSION lines, followed by lines the loop reads into a card, are parsed into that card |
| CardRoundTrip.DecodeBegin | vcard/src/models/property.rs:233 | the line BEGIN:VCARD decodes to BEGIN with value VCARD |
| CardRoundTrip.DecodeVersion | vcard/src/models/property.rs:235-242 | the written VERSION line decodes to that version |
| CardRoundTrip.DecodeEnd | vcard/src/models/property.rs:234 | the line END:VCARD decodes to END with value VCARD |
| CardRoundTrip.AltReplay | vcard/src/models/containers.rs:98-118 | adding the members of a homogeneous alt-id list one by one to an empty slot rebuilds the list |
| CardRoundTrip.KeysReplay | vcard/src/models/containers.rs:27-38 | adding the buckets of an alt-id map bucket after bucket, in any order of distinct keys, rebuilds those buckets |
| CardRoundTrip.Rebuild | vcard/src/reader.rs:112-146 | adding every registered property a valid card writes, in the written order, to the empty card of its version gives the card without its proprietary properties |
| CardRoundTrip.KindsPropsPrintable | vcard/src/models/model.rs:639-689 | every property a card writes is one of the card's own, so a card whose properties are all printable writes only printable ones |

## Left out

- I/O plumbing. `BufReader` and `io::Read` become a byte sequence plus a flag that says whether the inner reader fails once it is empty. Short reads of the inner reader, and I/O errors other than that one failure, are not modelled.
- `HashMap` iteration order. The order in which `MultiAltIDContainer` visits its buckets is unspecified, so it is a parameter (`order`, any enumeration of the keys). No claim depends on one particular order.
- The regex engine. The content-line pattern is modelled as an explicit leftmost scanner with the pattern's greedy captures. It is not proved against a regex implementation.
- Properties.Tokenize: its contract says only that a match has a name and a value. The full split is proved for lines of the written shape (`Properties.TokenizeLine`), not for arbitrary input.
- UTF-8. The decoder is modelled over bytes. The round trip of text through bytes is proved for every string (`Strings.Utf8RoundTrip`). Lower-casing is ASCII plus the Kelvin sign, the only non-ASCII character whose lower case is ASCII.
- The `url` crate. URI payloads are strings, as `property.rs` builds them. The `url::Url` field types of the older `model.rs` snapshot are not modelled.
- The card as objects. The card is a value holding maps from kind to container contents. The container classes are modelled separately, with the same specification functions (`AltAdd`, `MultiAdd`) that the card uses. Aliasing between a card's containers is therefore not modelled.
- CardRoundTrip.ParseWritten: proved only for cards whose written lines all read back unchanged. Each registered property must meet the conditions of `RoundTrip.PropRoundTrip`. Each proprietary property must have parameters that each read back as themselves and are already in the order the reader regroups them into (`RoundTrip.ProprietaryRoundTrip`), a group and an extension name that are names, and a one-line value. Each written line must not start with a blank, must contain no CR, and must be at most the reader's limit in bytes. The writer does not fold long lines, so a card with a line over the limit is written in a form the reader refuses with `MaxLineLengthExceeded`.
- Error messages (`thiserror` formatting in `vcard/src/errors.rs`). Only the variants and their data are modelled.
- The earlier revisions (`vcard/src/lib.rs`, `src/lib.rs`). Their behaviour contradicts the modular files: GENDER without ';' is accepted, END ignores `more` (`vcard/src/lib.rs`), and `src/lib.rs` accepts no VERSION but 4.0. Modelling them too would give contradictory contracts.
- The proc-macro machinery (syn/quote parsing, `compile_error!` paths). Only the generated `Display` and getters are modelled, through the descriptor table `Model.Fields`.
- `Rc<RefCell<..>>` sharing of the discard buffer. It is a field of the reader object.
- The `u64` line limit and `usize` counters. These are unbounded naturals, since no input reaches their bounds.
