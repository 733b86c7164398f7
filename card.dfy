// A whole card (the `VCard` struct of vcard/src/models/model.rs): where
// `parse_vcard` (vcard/src/reader.rs) puts each property it reads, and the
// card's `Display`.
module Cards {
  import opened Errors
  import opened Strings
  import opened Model
  import opened Serializer
  import opened Containers

  /** How a card holds the properties of one kind: an `Option` that is set
      once, an `AltIDContainer`, or a `MultiAltIDContainer`. */
  datatype Slot = Single | Alt | Multi

  function SlotOf(k: PropKind): Slot
  {
    match k
    case KIND => Single
    case GENDER => Single
    case PRODID => Single
    case REV => Single
    case UID => Single
    case CLIENTPIDMAP => Single
    case N => Alt
    case BDAY => Alt
    case ANNIVERSARY => Alt
    case _ => Multi
  }

  /** The name of a set-once field, as the cardinality error gives it. */
  function SingleName(k: PropKind): string
  {
    match k
    case KIND => "kind"
    case GENDER => "gender"
    case PRODID => "prodid"
    case REV => "rev"
    case UID => "uid"
    case CLIENTPIDMAP => "clientpidmap"
    case _ => Lower(DisplayName(k))
  }

  /** `Version::default()`. */
  function DefaultVersion(): (v: VersionValue)
    ensures VersionToken(v) == "4.0"
  {
    V4
  }

  /** A card: the version, the set-once properties, the alt-id lists and
      the alt-id maps by kind, and the proprietary properties in order. A
      kind whose container is empty has no entry. */
  datatype VCard = VCard(
    version: VersionValue,
    singles: map<PropKind, Prop>,
    alts: map<PropKind, seq<Prop>>,
    multis: map<PropKind, map<string, seq<Prop>>>,
    proprietary: seq<ProprietaryProperty>)

  /** The card `parse_vcard` starts from once it has the version. */
  function EmptyCard(v: VersionValue): VCard
  {
    VCard(v, map[], map[], map[], [])
  }

  /** Every set-once property sits under its own kind, in a set-once slot. */
  predicate SinglesValid(singles: map<PropKind, Prop>)
  {
    forall k :: k in singles ==> SlotOf(k) == Single && singles[k].kind == k
  }

  /** Every alt-id list is non-empty, homogeneous, and holds properties of
      its own kind, which has an alt-id list for a slot. */
  predicate AltsValid(alts: map<PropKind, seq<Prop>>)
  {
    forall k :: k in alts ==>
      && SlotOf(k) == Alt && alts[k] != [] && Homogeneous(alts[k])
      && forall i :: 0 <= i < |alts[k]| ==> alts[k][i].kind == k
  }

  /** Every alt-id map is non-empty with valid buckets, and holds
      properties of its own kind, which has an alt-id map for a slot. */
  predicate MultisValid(multis: map<PropKind, map<string, seq<Prop>>>)
  {
    forall k :: k in multis ==>
      SlotOf(k) == Multi && multis[k] != map[] && BucketsValid(multis[k]) && BucketsOfKind(multis[k], k)
  }

  predicate CardValid(c: VCard)
  {
    SinglesValid(c.singles) && AltsValid(c.alts) && MultisValid(c.multis)
  }

  /** One property added the way `parse_vcard` does: a set-once field that
      is already set is a cardinality error; an alt-id list refuses a
      mismatching alt-id; an alt-id map takes the property (its result is
      not looked at). */
  function AddProp(c: VCard, p: Prop): (r: Result<VCard>)
    ensures r.Ok? ==> r.value.version == c.version && r.value.proprietary == c.proprietary
  {
    var k := p.kind;
    match SlotOf(k)
    case Single =>
      if k in c.singles then Err(InvalidCardinality(1, SingleName(k)))
      else Ok(c.(singles := c.singles[k := p]))
    case Alt =>
      (match AltAdd(if k in c.alts then c.alts[k] else [], p)
       case Err(e) => Err(e)
       case Ok(xs) => Ok(c.(alts := c.alts[k := xs])))
    case Multi =>
      (match MultiAdd(if k in c.multis then c.multis[k] else map[], p)
       case Err(_) => Ok(c)
       case Ok(m) => Ok(c.(multis := c.multis[k := m])))
  }

  /** A second property of a set-once kind is a cardinality error naming
      the field; the first one is stored. */
  lemma AddSingle(c: VCard, p: Prop)
    requires SinglesValid(c.singles) && SlotOf(p.kind) == Single
    ensures p.kind in c.singles ==> AddProp(c, p) == Err(InvalidCardinality(1, SingleName(p.kind)))
    ensures p.kind !in c.singles ==>
              AddProp(c, p) == Ok(c.(singles := c.singles[p.kind := p]))
              && SinglesValid(c.singles[p.kind := p])
  {
  }

  /** An alt-id list kind fails exactly when the list already holds a
      different alt-id; otherwise the property is appended and the list
      stays homogeneous. */
  lemma AddAlt(c: VCard, p: Prop)
    requires AltsValid(c.alts) && SlotOf(p.kind) == Alt
    ensures AddProp(c, p).Err? <==> p.kind in c.alts && GetAltId(p) != GetAltId(c.alts[p.kind][0])
    ensures AddProp(c, p).Err? ==>
              AddProp(c, p).error == InvalidAltId(GetAltId(c.alts[p.kind][0]), GetAltId(p))
    ensures AddProp(c, p).Ok? ==>
              var xs := (if p.kind in c.alts then c.alts[p.kind] else []) + [p];
              AddProp(c, p) == Ok(c.(alts := c.alts[p.kind := xs])) && AltsValid(c.alts[p.kind := xs])
  {
    var k := p.kind;
    var items := if k in c.alts then c.alts[k] else [];
    AltAddKeepsHomogeneous(items, p);
    if AltAdd(items, p).Ok? {
      var xs := items + [p];
      assert forall i :: 0 <= i < |xs| ==> xs[i].kind == k by {
        forall i | 0 <= i < |xs| ensures xs[i].kind == k {
          if i < |items| { assert xs[i] == items[i]; }
        }
      }
    }
  }

  /** An alt-id map kind never fails: the property joins the bucket of its
      alt-id and the card stays valid. */
  lemma AddMulti(c: VCard, p: Prop)
    requires MultisValid(c.multis) && SlotOf(p.kind) == Multi
    ensures AddProp(c, p).Ok?
    ensures var m := MultiAdd(if p.kind in c.multis then c.multis[p.kind] else map[], p).value;
            && GetAltId(p) in m && m[GetAltId(p)][|m[GetAltId(p)]| - 1] == p
            && AddProp(c, p) == Ok(c.(multis := c.multis[p.kind := m]))
            && MultisValid(c.multis[p.kind := m])
  {
    var k := p.kind;
    var buckets := if k in c.multis then c.multis[k] else map[];
    MultiAddNeverFails(buckets, p);
    var m: map<string, seq<Prop>> := MultiAdd(buckets, p).value;
    MultiAddKeepsKind(buckets, p);
  }

  /** Every bucket holds properties of kind `k` only. */
  predicate BucketsOfKind(buckets: map<string, seq<Prop>>, k: PropKind)
  {
    forall key, i :: key in buckets && 0 <= i < |buckets[key]| ==> buckets[key][i].kind == k
  }

  lemma MultiAddKeepsKind(buckets: map<string, seq<Prop>>, p: Prop)
    requires BucketsValid(buckets) && BucketsOfKind(buckets, p.kind)
    ensures MultiAdd(buckets, p).Ok? && BucketsOfKind(MultiAdd(buckets, p).value, p.kind)
  {
    MultiAddNeverFails(buckets, p);
    var m: map<string, seq<Prop>> := MultiAdd(buckets, p).value;
    var key := GetAltId(p);
    forall other: string, i: int | other in m && 0 <= i < |m[other]| ensures m[other][i].kind == p.kind {
      if other == key {
        var old_ := if key in buckets then buckets[key] else [];
        if i < |old_| { assert m[other][i] == old_[i]; }
      } else {
        assert m[other] == buckets[other];
      }
    }
  }

  /** Adding keeps a card valid; it fails exactly for a second set-once
      property and for an alt-id list whose alt-id differs. */
  lemma AddPropKeepsValid(c: VCard, p: Prop)
    requires CardValid(c)
    ensures AddProp(c, p).Err? <==>
              (SlotOf(p.kind) == Single && p.kind in c.singles)
              || (SlotOf(p.kind) == Alt && p.kind in c.alts && GetAltId(p) != GetAltId(c.alts[p.kind][0]))
    ensures AddProp(c, p).Ok? ==> CardValid(AddProp(c, p).value)
  {
    match SlotOf(p.kind) {
      case Single => AddSingle(c, p);
      case Alt => AddAlt(c, p);
      case Multi => AddMulti(c, p);
    }
  }

  // ---------------------------------------------------------------------
  // Display

  /** The kind `Display` writes in position `i`. */
  function DisplayKind(i: nat): PropKind
    requires i < 35
  {
    match i
    case 0 => SOURCE case 1 => KIND case 2 => XML case 3 => FN case 4 => N
    case 5 => NICKNAME case 6 => PHOTO case 7 => BDAY case 8 => ANNIVERSARY
    case 9 => GENDER case 10 => ADR case 11 => TEL case 12 => EMAIL
    case 13 => IMPP case 14 => LANG case 15 => TZ case 16 => GEO
    case 17 => TITLE case 18 => ROLE case 19 => LOGO case 20 => ORG
    case 21 => MEMBER case 22 => RELATED case 23 => CATEGORIES case 24 => NOTE
    case 25 => PRODID case 26 => REV case 27 => UID case 28 => CLIENTPIDMAP
    case 29 => SOUND case 30 => URL case 31 => KEY case 32 => FBURL
    case 33 => CALURI case _ => CALADURI
  }

  /** The order `Display` writes the kinds in. */
  function DisplayOrder(): (order: seq<PropKind>)
    ensures |order| == 35 && forall i :: 0 <= i < 35 ==> order[i] == DisplayKind(i)
  {
    seq(35, i requires 0 <= i < 35 => DisplayKind(i))
  }

  /** Where `Display` writes kind `k`. */
  function DisplayIndex(k: PropKind): nat
  {
    match k
    case SOURCE => 0 case KIND => 1 case XML => 2 case FN => 3 case N => 4
    case NICKNAME => 5 case PHOTO => 6 case BDAY => 7 case ANNIVERSARY => 8
    case GENDER => 9 case ADR => 10 case TEL => 11 case EMAIL => 12
    case IMPP => 13 case LANG => 14 case TZ => 15 case GEO => 16
    case TITLE => 17 case ROLE => 18 case LOGO => 19 case ORG => 20
    case MEMBER => 21 case RELATED => 22 case CATEGORIES => 23 case NOTE => 24
    case PRODID => 25 case REV => 26 case UID => 27 case CLIENTPIDMAP => 28
    case SOUND => 29 case URL => 30 case KEY => 31 case FBURL => 32
    case CALURI => 33 case CALADURI => 34
  }

  /** Every kind is written, at its own position. */
  lemma DisplayOrderCovers(k: PropKind)
    ensures DisplayIndex(k) < |DisplayOrder()| && DisplayOrder()[DisplayIndex(k)] == k
  {
  }

  lemma DisplayIndexOfKind(i: nat)
    requires i < 35
    ensures DisplayIndex(DisplayKind(i)) == i
  {
  }

  /** No kind is written twice. */
  lemma DisplayOrderDistinct(i: int, j: int)
    requires 0 <= i < |DisplayOrder()| && 0 <= j < |DisplayOrder()| && i != j
    ensures DisplayOrder()[i] != DisplayOrder()[j]
  {
    DisplayIndexOfKind(i);
    DisplayIndexOfKind(j);
  }

  /** The iteration order of every alt-id map of the card. */
  predicate OrdersFor(c: VCard, order: map<PropKind, seq<string>>)
  {
    forall k :: k in c.multis ==> k in order && Enumerates(order[k], c.multis[k])
  }

  /** `write_vcard_property`: a set-once property when present. */
  function WriteOptional(c: VCard, k: PropKind): string
  {
    if k in c.singles then ShowProp(c.singles[k]) else ""
  }

  /** The text of one kind's slot. */
  function ShowSlot(c: VCard, order: map<PropKind, seq<string>>, k: PropKind): string
    requires OrdersFor(c, order)
  {
    match SlotOf(k)
    case Single => WriteOptional(c, k)
    case Alt => if k in c.alts then ShowAll(c.alts[k]) else ""
    case Multi => if k in c.multis then ShowBuckets(c.multis[k], order[k]) else ""
  }

  function ShowSlots(c: VCard, order: map<PropKind, seq<string>>, kinds: seq<PropKind>): string
    requires OrdersFor(c, order)
    decreases |kinds|
  {
    if kinds == [] then [] else ShowSlot(c, order, kinds[0]) + ShowSlots(c, order, kinds[1..])
  }

  function ShowProprietaries(pps: seq<ProprietaryProperty>): string
    decreases |pps|
  {
    if pps == [] then [] else ShowProprietary(pps[0]) + ShowProprietaries(pps[1..])
  }

  /** `Display` of a card. */
  function ShowCard(c: VCard, order: map<PropKind, seq<string>>): string
    requires OrdersFor(c, order)
  {
    "BEGIN:VCARD\r\n" + ShowVersion(c.version)
    + ShowSlots(c, order, DisplayOrder()) + ShowProprietaries(c.proprietary)
    + "END:VCARD\r\n"
  }

  lemma {:induction false} ShowSlotsEmpty(c: VCard, order: map<PropKind, seq<string>>, kinds: seq<PropKind>)
    requires c.singles == map[] && c.alts == map[] && c.multis == map[]
    ensures ShowSlots(c, order, kinds) == ""
    decreases |kinds|
  {
    if kinds != [] {
      ShowSlotsEmpty(c, order, kinds[1..]);
    }
  }

  /** A card without properties writes only its BEGIN, VERSION and END
      lines: absent set-once properties and empty containers write
      nothing. */
  lemma EmptyCardDisplay(v: VersionValue, order: map<PropKind, seq<string>>)
    ensures ShowCard(EmptyCard(v), order) == "BEGIN:VCARD\r\n" + ShowVersion(v) + "END:VCARD\r\n"
  {
    var c := EmptyCard(v);
    ShowSlotsEmpty(c, order, DisplayOrder());
    assert ShowProprietaries(c.proprietary) == "";
    var head := "BEGIN:VCARD\r\n" + ShowVersion(v);
    assert ShowCard(c, order) == head + "" + "" + "END:VCARD\r\n";
    assert head + "" + "" == head;
  }

  /** Proprietary properties are written after every registered one, in
      the order they were read. */
  lemma {:induction false} ShowProprietariesAppend(pps: seq<ProprietaryProperty>, pp: ProprietaryProperty)
    ensures ShowProprietaries(pps + [pp]) == ShowProprietaries(pps) + ShowProprietary(pp)
    decreases |pps|
  {
    if pps == [] {
      assert [pp][1..] == [];
      assert ShowProprietary(pp) + [] == ShowProprietary(pp);
    } else {
      assert (pps + [pp])[1..] == pps[1..] + [pp];
      ShowProprietariesAppend(pps[1..], pp);
      ConcatAssoc(ShowProprietary(pps[0]), ShowProprietaries(pps[1..]), ShowProprietary(pp));
    }
  }
}
