// The card-level round trip: reading back the text a card is written as
// (`VCard`'s `Display`, vcard/src/models/model.rs) with `parse_vcard`
// (vcard/src/reader.rs) gives the card again, when every line written is
// one the reader takes back unchanged.
//
// The proof goes in three layers: the text a card writes is a list of
// lines, each ended by CR LF; the reader takes such a list line by line,
// each line decoded on its own; and adding the decoded properties one by
// one, kind after kind in the written order, rebuilds the card's slots.
module CardRoundTrip {
  import opened Errors
  import opened Strings
  import opened Model
  import opened Parameters
  import opened Serializer
  import opened Containers
  import opened Properties
  import opened Cards
  import opened RoundTrip
  import opened Pushback
  import opened Reader

  // ---------------------------------------------------------------------
  // The written text as lines

  /** Each line followed by CR LF. */
  function Crlf(lines: seq<string>): (r: string)
    ensures lines == [] ==> r == []
    decreases |lines|
  {
    if lines == [] then [] else lines[0] + "\r\n" + Crlf(lines[1..])
  }

  lemma {:induction false} CrlfAppend(a: seq<string>, b: seq<string>)
    ensures Crlf(a + b) == Crlf(a) + Crlf(b)
    decreases |a|
  {
    if a == [] {
      assert a + b == b;
    } else {
      assert (a + b)[0] == a[0] && (a + b)[1..] == a[1..] + b;
      CrlfAppend(a[1..], b);
      ConcatAssoc(a[0] + "\r\n", Crlf(a[1..]), Crlf(b));
    }
  }

  lemma CrlfSingle(l: string)
    ensures Crlf([l]) == l + "\r\n"
  {
    var none: seq<string> := [];
    assert [l][1..] == none;
    assert l + "\r\n" + [] == l + "\r\n";
  }

  /** The line of each element. */
  function Lines<T>(xs: seq<T>, line: T -> string): (r: seq<string>)
    ensures |r| == |xs| && forall i :: 0 <= i < |xs| ==> r[i] == line(xs[i])
  {
    seq(|xs|, i requires 0 <= i < |xs| => line(xs[i]))
  }

  lemma LinesAppend<T>(a: seq<T>, b: seq<T>, line: T -> string)
    ensures Lines(a + b, line) == Lines(a, line) + Lines(b, line)
  {
    var l := Lines(a + b, line);
    var r := Lines(a, line) + Lines(b, line);
    assert |l| == |r|;
    forall i | 0 <= i < |l|
      ensures l[i] == r[i]
    {
      if i < |a| {
        assert (a + b)[i] == a[i];
      } else {
        assert (a + b)[i] == b[i - |a|];
      }
    }
  }

  lemma LinesCons<T>(xs: seq<T>, line: T -> string)
    requires xs != []
    ensures Lines(xs, line) == [line(xs[0])] + Lines(xs[1..], line)
  {
    LinesAppend([xs[0]], xs[1..], line);
    assert [xs[0]] + xs[1..] == xs;
  }

  function PropLines(ps: seq<Prop>): seq<string>
  {
    Lines(ps, PropLine)
  }

  function ProprietaryLines(pps: seq<ProprietaryProperty>): seq<string>
  {
    Lines(pps, ProprietaryLine)
  }

  lemma PropLinesAppend(a: seq<Prop>, b: seq<Prop>)
    ensures PropLines(a + b) == PropLines(a) + PropLines(b)
  {
    LinesAppend(a, b, PropLine);
  }

  /** An alt-id list writes each member's line in turn. */
  lemma {:induction false} ShowAllLines(items: seq<Prop>)
    ensures ShowAll(items) == Crlf(PropLines(items))
    decreases |items|
  {
    if items != [] {
      ShowAllLines(items[1..]);
      LinesCons(items, PropLine);
      CrlfAppend([PropLine(items[0])], PropLines(items[1..]));
      CrlfSingle(PropLine(items[0]));
    }
  }

  /** The properties of the buckets `keys` names, bucket after bucket. */
  function BucketProps(buckets: map<string, seq<Prop>>, keys: seq<string>): (r: seq<Prop>)
    requires forall i :: 0 <= i < |keys| ==> keys[i] in buckets
    ensures keys == [] ==> r == []
    decreases |keys|
  {
    if keys == [] then [] else buckets[keys[0]] + BucketProps(buckets, keys[1..])
  }

  lemma {:induction false} ShowBucketsLines(buckets: map<string, seq<Prop>>, keys: seq<string>)
    requires forall i :: 0 <= i < |keys| ==> keys[i] in buckets
    ensures ShowBuckets(buckets, keys) == Crlf(PropLines(BucketProps(buckets, keys)))
    decreases |keys|
  {
    if keys != [] {
      var first := buckets[keys[0]];
      ShowBucketsLines(buckets, keys[1..]);
      ShowAllLines(first);
      PropLinesAppend(first, BucketProps(buckets, keys[1..]));
      CrlfAppend(PropLines(first), PropLines(BucketProps(buckets, keys[1..])));
    }
  }

  /** The properties a card writes for one kind, in the order it writes
      them. */
  function SlotProps(c: VCard, order: map<PropKind, seq<string>>, k: PropKind): seq<Prop>
    requires OrdersFor(c, order)
  {
    match SlotOf(k)
    case Single => if k in c.singles then [c.singles[k]] else []
    case Alt => if k in c.alts then c.alts[k] else []
    case Multi => if k in c.multis then BucketProps(c.multis[k], order[k]) else []
  }

  /** The properties a card writes for the kinds `kinds`, kind after kind. */
  function KindsProps(c: VCard, order: map<PropKind, seq<string>>, kinds: seq<PropKind>): (r: seq<Prop>)
    requires OrdersFor(c, order)
    ensures kinds == [] ==> r == []
    decreases |kinds|
  {
    if kinds == [] then [] else SlotProps(c, order, kinds[0]) + KindsProps(c, order, kinds[1..])
  }

  lemma ShowSlotLines(c: VCard, order: map<PropKind, seq<string>>, k: PropKind)
    requires OrdersFor(c, order)
    ensures ShowSlot(c, order, k) == Crlf(PropLines(SlotProps(c, order, k)))
  {
    match SlotOf(k)
    case Single =>
      if k in c.singles {
        CrlfSingle(PropLine(c.singles[k]));
        assert PropLines([c.singles[k]]) == [PropLine(c.singles[k])];
      }
    case Alt =>
      if k in c.alts {
        ShowAllLines(c.alts[k]);
      }
    case Multi =>
      if k in c.multis {
        ShowBucketsLines(c.multis[k], order[k]);
      }
  }

  lemma {:induction false} ShowSlotsLines(c: VCard, order: map<PropKind, seq<string>>, kinds: seq<PropKind>)
    requires OrdersFor(c, order)
    ensures ShowSlots(c, order, kinds) == Crlf(PropLines(KindsProps(c, order, kinds)))
    decreases |kinds|
  {
    if kinds != [] {
      ShowSlotLines(c, order, kinds[0]);
      ShowSlotsLines(c, order, kinds[1..]);
      PropLinesAppend(SlotProps(c, order, kinds[0]), KindsProps(c, order, kinds[1..]));
      CrlfAppend(PropLines(SlotProps(c, order, kinds[0])), PropLines(KindsProps(c, order, kinds[1..])));
    }
  }

  lemma {:induction false} ShowProprietariesLines(pps: seq<ProprietaryProperty>)
    ensures ShowProprietaries(pps) == Crlf(ProprietaryLines(pps))
    decreases |pps|
  {
    if pps != [] {
      ShowProprietariesLines(pps[1..]);
      LinesCons(pps, ProprietaryLine);
      CrlfAppend([ProprietaryLine(pps[0])], ProprietaryLines(pps[1..]));
      CrlfSingle(ProprietaryLine(pps[0]));
    }
  }

  /** The lines a card writes, without their CR LF: BEGIN, VERSION, the
      registered properties kind after kind, the proprietary ones, END. */
  function CardLines(c: VCard, order: map<PropKind, seq<string>>): (r: seq<string>)
    requires OrdersFor(c, order)
    ensures |r| >= 3 && r[0] == "BEGIN" + ":" + "VCARD" && r[1] == "VERSION" + ":" + VersionToken(c.version)
    ensures r[|r| - 1] == "END" + ":" + "VCARD"
  {
    ["BEGIN" + ":" + "VCARD", "VERSION" + ":" + VersionToken(c.version)] + BodyLines(c, order)
  }

  /** `Display` writes exactly the card's lines, each ended by CR LF. */
  lemma ShowCardLines(c: VCard, order: map<PropKind, seq<string>>)
    requires OrdersFor(c, order)
    ensures ShowCard(c, order) == Crlf(CardLines(c, order))
  {
    var props := PropLines(KindsProps(c, order, DisplayOrder()));
    var pl := ProprietaryLines(c.proprietary);
    var b := "BEGIN" + ":" + "VCARD";
    var v := "VERSION" + ":" + VersionToken(c.version);
    var e := "END" + ":" + "VCARD";
    ShowSlotsLines(c, order, DisplayOrder());
    ShowProprietariesLines(c.proprietary);
    Regroup([b, v], props, pl, [e]);
    CrlfFrame(b, v, props, pl, e);
    FixedLinesText(VersionToken(c.version));
  }

  lemma FixedLinesText(t: string)
    ensures ("BEGIN" + ":" + "VCARD") + "\r\n" == "BEGIN:VCARD\r\n"
    ensures ("VERSION" + ":" + t) + "\r\n" == "VERSION:" + t + "\r\n"
    ensures ("END" + ":" + "VCARD") + "\r\n" == "END:VCARD\r\n"
  {
  }

  lemma CrlfFrame(b: string, v: string, props: seq<string>, pl: seq<string>, e: string)
    ensures Crlf([b, v] + props + pl + [e]) == b + "\r\n" + (v + "\r\n") + Crlf(props) + Crlf(pl) + (e + "\r\n")
  {
    CrlfAppend([b, v] + props + pl, [e]);
    CrlfAppend([b, v] + props, pl);
    CrlfAppend([b, v], props);
    CrlfAppend([b], [v]);
    assert [b] + [v] == [b, v];
    CrlfSingle(b);
    CrlfSingle(v);
    CrlfSingle(e);
  }

  // ---------------------------------------------------------------------
  // The lines as bytes, read back one by one

  /** Each line UTF-8 encoded and followed by CR LF. */
  function Wire(lines: seq<string>): (r: seq<byte>)
    ensures lines == [] ==> r == []
    decreases |lines|
  {
    if lines == [] then [] else Utf8Encode(lines[0]) + [CR, LF] + Wire(lines[1..])
  }

  lemma CrlfBytes()
    ensures Utf8Encode("\r\n") == [CR, LF]
  {
    var t := "\r\n";
    assert t[1..] == "\n" && t[1..][1..] == [];
    assert EncodeChar('\r') == [CR] && EncodeChar('\n') == [LF];
  }

  /** The encoding of the written text is the lines' bytes. */
  lemma {:induction false} EncodeCrlf(lines: seq<string>)
    ensures Utf8Encode(Crlf(lines)) == Wire(lines)
    decreases |lines|
  {
    if lines != [] {
      EncodeCrlf(lines[1..]);
      Utf8EncodeAppend(lines[0] + "\r\n", Crlf(lines[1..]));
      Utf8EncodeAppend(lines[0], "\r\n");
      CrlfBytes();
    }
  }

  lemma {:induction false} EncodeNoCR(s: string)
    requires Free(s, '\r')
    ensures NoCR(Utf8Encode(s))
    decreases |s|
  {
    if s != [] {
      EncodeNoCR(s[1..]);
      var e := EncodeChar(s[0]);
      assert forall i :: 0 <= i < |e| ==> e[i] != CR;
    }
  }

  /** A line the reader takes back unchanged: not empty, not starting with
      a blank (which would make it a continuation or a line to discard),
      without CR (which the reader drops), and at most `max` bytes long. */
  predicate LineFits(l: string, max: nat)
  {
    && l != [] && l[0] != ' ' && l[0] != '\t'
    && Free(l, '\r')
    && |Utf8Encode(l)| <= max
  }

  predicate AllFit(lines: seq<string>, max: nat)
  {
    forall i :: 0 <= i < |lines| ==> LineFits(lines[i], max)
  }

  lemma WireCons(lines: seq<string>)
    requires lines != []
    ensures Wire(lines) == Utf8Encode(lines[0]) + [CR, LF] + Wire(lines[1..])
  {
  }

  /** A line the reader takes back, ended by CR LF and followed by another
      such line or by nothing, is read as one logical line; whether more
      follows is whether another line does. */
  lemma ReadLine(l: string, rest: seq<string>, d: seq<byte>, max: nat)
    requires LineFits(l, max)
    requires rest != [] ==> LineFits(rest[0], max)
    ensures Logical(Stream(Wire([l] + rest), false), d, max)
         == LineOut(Ok((l, rest != [])), d, Stream(Wire(rest), false))
  {
    var bs := Utf8Encode(l);
    var w := Wire(rest);
    ReadFirst(l, rest, max);
    NextLineAhead(rest, bs, d, max);
    Utf8RoundTrip(l);
  }

  lemma ReadFirst(l: string, rest: seq<string>, max: nat)
    requires LineFits(l, max)
    ensures Physical(Stream(Wire([l] + rest), false), [], max)
         == PhysicalOut(Ok(()), Utf8Encode(l), Stream(Wire(rest), false))
  {
    var bs := Utf8Encode(l);
    EncodeNoCR(l);
    WireCons([l] + rest);
    assert ([l] + rest)[0] == l && ([l] + rest)[1..] == rest;
    PhysicalReadsLine(bs, Wire(rest), false, [], max);
    assert [] + bs == bs;
  }

  /** After a line, the look-ahead finds the next property, or the end. */
  lemma NextLineAhead(rest: seq<string>, line: seq<byte>, d: seq<byte>, max: nat)
    requires rest != [] ==> LineFits(rest[0], max)
    ensures Continue(Stream(Wire(rest), false), line, d, max)
         == Finish(line, rest != [], d, Stream(Wire(rest), false))
  {
    var w := Wire(rest);
    if rest != [] {
      var first := rest[0];
      WireCons(rest);
      var e := Utf8Encode(first);
      assert e[0] == EncodeChar(first[0])[0];
      EncodeCharControl(first[0]);
      assert w[0] == e[0];
      assert Inspect(Stream(w, false)) == InspectOut(Ok(NewProperty), Stream(w, false));
    }
  }

  /** The property of such a line, and the stream after it. */
  lemma ReadPropLine(l: string, rest: seq<string>, d: seq<byte>, max: nat, prop: Property)
    requires LineFits(l, max)
    requires rest != [] ==> LineFits(rest[0], max)
    requires DecodeLine(l) == Ok(prop)
    ensures ReadProp(Stream(Wire([l] + rest), false), d, max)
         == PropertyOut(Ok((prop, rest != [])), d, Stream(Wire(rest), false))
  {
    ReadLine(l, rest, d, max);
  }

  // ---------------------------------------------------------------------
  // Adding the properties back, kind after kind

  /** The properties added in turn the way `parse_vcard` adds them,
      stopping at the first refusal. */
  function AddAll(card: VCard, ps: seq<Prop>): Result<VCard>
    decreases |ps|
  {
    if ps == [] then Ok(card)
    else match AddProp(card, ps[0])
      case Err(e) => Err(e)
      case Ok(next) => AddAll(next, ps[1..])
  }

  lemma {:induction false} AddAllAppend(card: VCard, a: seq<Prop>, b: seq<Prop>)
    ensures AddAll(card, a + b) == match AddAll(card, a) case Err(e) => Err(e) case Ok(n) => AddAll(n, b)
    decreases |a|
  {
    if a == [] {
      assert a + b == b;
    } else {
      assert (a + b)[0] == a[0] && (a + b)[1..] == a[1..] + b;
      match AddProp(card, a[0])
      case Err(_) =>
      case Ok(next) => AddAllAppend(next, a[1..], b);
    }
  }

  /** The entries of `m` whose key is in `keys`. */
  function Only<K(!new), V>(m: map<K, V>, keys: set<K>): (r: map<K, V>)
    ensures forall x :: x in r <==> x in m && x in keys
    ensures forall x :: x in r ==> r[x] == m[x]
  {
    map x | x in m && x in keys :: m[x]
  }

  lemma OnlyGrow<K(!new), V>(m: map<K, V>, keys: set<K>, k: K)
    ensures Only(m, keys + {k}) == if k in m then Only(m, keys)[k := m[k]] else Only(m, keys)
  {
  }

  lemma OnlyAll<K(!new), V>(m: map<K, V>, keys: set<K>)
    requires forall x :: x in m ==> x in keys
    ensures Only(m, keys) == m
  {
  }

  lemma OnlyNone<K(!new), V>(m: map<K, V>)
    ensures Only(m, {}) == map[]
  {
  }

  /** The card's registered properties of the kinds in `ks` only, without
      proprietary properties. */
  function Upto(c: VCard, ks: set<PropKind>): VCard
  {
    VCard(c.version, Only(c.singles, ks), Only(c.alts, ks), Only(c.multis, ks), [])
  }

  /** The elements of a sequence. */
  function Elements<T>(xs: seq<T>): (r: set<T>)
    ensures forall i :: 0 <= i < |xs| ==> xs[i] in r
    ensures forall x :: x in r ==> x in xs
    decreases |xs|
  {
    if xs == [] then {} else {xs[0]} + Elements(xs[1..])
  }

  /** `b` with the alt-id list `xs` for kind `k` (no entry when empty). */
  function SetAlt(b: VCard, k: PropKind, xs: seq<Prop>): VCard
  {
    if xs == [] then b else b.(alts := b.alts[k := xs])
  }

  /** `b` with the alt-id map `m` for kind `k` (no entry when empty). */
  function SetMulti(b: VCard, k: PropKind, m: map<string, seq<Prop>>): VCard
  {
    if m == map[] then b else b.(multis := b.multis[k := m])
  }

  /** The buckets of `m` whose key is in `keys`. */
  function Part(m: map<string, seq<Prop>>, keys: set<string>): map<string, seq<Prop>>
  {
    Only(m, keys)
  }

  /** One property added to an alt-id list kind whose list is `xs`. */
  lemma AddPropAlt(b: VCard, k: PropKind, xs: seq<Prop>, p: Prop)
    requires k !in b.alts && SlotOf(k) == Alt && p.kind == k
    requires xs != [] ==> GetAltId(xs[0]) == GetAltId(p)
    ensures AddProp(SetAlt(b, k, xs), p) == Ok(SetAlt(b, k, xs + [p]))
  {
    var card := SetAlt(b, k, xs);
    assert (if k in card.alts then card.alts[k] else []) == xs;
    if xs == [] {
      assert xs + [p] == [p];
    }
    assert AltAdd(xs, p) == Ok(xs + [p]);
    if xs != [] {
      assert card.alts[k := xs + [p]] == b.alts[k := xs + [p]];
    }
  }

  /** One property added to an alt-id map kind whose map is `m`. */
  lemma AddPropMulti(b: VCard, k: PropKind, m: map<string, seq<Prop>>, p: Prop)
    requires k !in b.multis && SlotOf(k) == Multi && p.kind == k
    requires MultiAdd(m, p).Ok? && MultiAdd(m, p).value != map[]
    ensures AddProp(SetMulti(b, k, m), p) == Ok(SetMulti(b, k, MultiAdd(m, p).value))
  {
    var card := SetMulti(b, k, m);
    assert (if k in card.multis then card.multis[k] else map[]) == m;
    if m != map[] {
      assert card.multis[k := MultiAdd(m, p).value] == b.multis[k := MultiAdd(m, p).value];
    }
  }

  /** A bucket grows by the property added. */
  lemma MultiAddBucket(m: map<string, seq<Prop>>, key: string, pre: seq<Prop>, p: Prop)
    requires key !in m && GetAltId(p) == key
    requires pre != [] ==> GetAltId(pre[0]) == key
    ensures MultiAdd(if pre == [] then m else m[key := pre], p) == Ok(m[key := pre + [p]])
  {
    if pre == [] {
      assert pre + [p] == [p];
    } else {
      var cur := m[key := pre];
      assert AltAdd(pre, p) == Ok(pre + [p]);
      assert cur[key := pre + [p]] == m[key := pre + [p]];
    }
  }

  lemma {:induction false} AltReplay(b: VCard, k: PropKind, pre: seq<Prop>, xs: seq<Prop>)
    requires k !in b.alts && SlotOf(k) == Alt
    requires Homogeneous(pre + xs)
    requires forall i :: 0 <= i < |xs| ==> xs[i].kind == k
    ensures AddAll(SetAlt(b, k, pre), xs) == Ok(SetAlt(b, k, pre + xs))
    decreases |xs|
  {
    if xs == [] {
      assert pre + xs == pre;
    } else {
      var p := xs[0];
      var all := pre + xs;
      assert all[|pre|] == p && all[0] == (if pre == [] then p else pre[0]);
      assert GetAltId(all[|pre|]) == GetAltId(all[0]);
      AddPropAlt(b, k, pre, p);
      assert (pre + [p]) + xs[1..] == all;
      AltReplay(b, k, pre + [p], xs[1..]);
    }
  }

  lemma {:induction false} BucketReplay(b: VCard, k: PropKind, m: map<string, seq<Prop>>, key: string, xs: seq<Prop>)
    requires k !in b.multis && SlotOf(k) == Multi
    requires BucketsValid(m) && key !in m && xs != []
    requires forall i :: 0 <= i < |xs| ==> xs[i].kind == k && GetAltId(xs[i]) == key
    ensures AddAll(SetMulti(b, k, m), xs) == Ok(SetMulti(b, k, m[key := xs]))
  {
    BucketGrow(b, k, m, key, [], xs);
    assert [] + xs == xs;
  }

  lemma {:induction false} BucketGrow(b: VCard, k: PropKind, m: map<string, seq<Prop>>, key: string, pre: seq<Prop>, xs: seq<Prop>)
    requires k !in b.multis && SlotOf(k) == Multi
    requires BucketsValid(m) && key !in m && pre + xs != []
    requires forall i :: 0 <= i < |pre| ==> GetAltId(pre[i]) == key
    requires forall i :: 0 <= i < |xs| ==> xs[i].kind == k && GetAltId(xs[i]) == key
    ensures AddAll(SetMulti(b, k, if pre == [] then m else m[key := pre]), xs) == Ok(SetMulti(b, k, m[key := pre + xs]))
    decreases |xs|
  {
    var cur := if pre == [] then m else m[key := pre];
    if xs == [] {
      assert pre + xs == pre;
    } else {
      var p := xs[0];
      assert p.kind == k;
      MultiAddBucket(m, key, pre, p);
      assert key in m[key := pre + [p]];
      AddPropMulti(b, k, cur, p);
      assert (pre + [p]) + xs[1..] == pre + xs;
      BucketGrow(b, k, m, key, pre + [p], xs[1..]);
    }
  }

  /** One bucket added to the buckets of the keys done. */
  lemma KeyReplay(b: VCard, k: PropKind, buckets: map<string, seq<Prop>>, done: set<string>, key: string)
    requires k !in b.multis && SlotOf(k) == Multi
    requires BucketsValid(buckets) && BucketsOfKind(buckets, k)
    requires key in buckets && key !in done
    ensures AddAll(SetMulti(b, k, Part(buckets, done)), buckets[key])
         == Ok(SetMulti(b, k, Part(buckets, done + {key})))
  {
    var xs := buckets[key];
    var m := Part(buckets, done);
    assert BucketsValid(m);
    assert forall i :: 0 <= i < |xs| ==> xs[i].kind == k && GetAltId(xs[i]) == key;
    BucketReplay(b, k, m, key, xs);
    OnlyGrow(buckets, done, key);
  }

  /** The buckets of an alt-id map, added key after key, rebuild it. */
  lemma {:induction false} KeysReplay(b: VCard, k: PropKind, buckets: map<string, seq<Prop>>, done: set<string>, keys: seq<string>)
    requires k !in b.multis && SlotOf(k) == Multi
    requires BucketsValid(buckets) && BucketsOfKind(buckets, k)
    requires forall i :: 0 <= i < |keys| ==> keys[i] in buckets && keys[i] !in done
    requires forall i, j :: 0 <= i < j < |keys| ==> keys[i] != keys[j]
    ensures AddAll(SetMulti(b, k, Part(buckets, done)), BucketProps(buckets, keys))
         == Ok(SetMulti(b, k, Part(buckets, done + Elements(keys))))
    decreases |keys|
  {
    if keys == [] {
      assert done + Elements(keys) == done;
    } else {
      var key := keys[0];
      var xs := buckets[key];
      var m := Part(buckets, done);
      KeyReplay(b, k, buckets, done, key);
      AddAllAppend(SetMulti(b, k, m), xs, BucketProps(buckets, keys[1..]));
      assert forall i :: 0 <= i < |keys[1..]| ==> keys[1..][i] == keys[i + 1];
      KeysReplay(b, k, buckets, done + {key}, keys[1..]);
      assert (done + {key}) + Elements(keys[1..]) == done + Elements(keys);
    }
  }

  /** A set-once kind's property, added to the card built so far. */
  lemma AddSingleSlot(c: VCard, order: map<PropKind, seq<string>>, ks: set<PropKind>, k: PropKind)
    requires OrdersFor(c, order) && k !in ks && SlotOf(k) == Single
    requires k !in c.alts && k !in c.multis && (k in c.singles ==> c.singles[k].kind == k)
    ensures AddAll(Upto(c, ks), SlotProps(c, order, k)) == Ok(Upto(c, ks + {k}))
  {
    var u := Upto(c, ks);
    OnlyGrow(c.singles, ks, k);
    OnlyGrow(c.alts, ks, k);
    OnlyGrow(c.multis, ks, k);
    if k in c.singles {
      var p := c.singles[k];
      assert k !in u.singles;
      assert AddProp(u, p) == Ok(u.(singles := u.singles[k := p]));
      assert [p][1..] == [];
    }
  }

  /** An alt-id list kind's properties, added to the card built so far. */
  lemma AddAltSlot(c: VCard, order: map<PropKind, seq<string>>, ks: set<PropKind>, k: PropKind)
    requires OrdersFor(c, order) && k !in ks && SlotOf(k) == Alt
    requires k !in c.singles && k !in c.multis
    requires k in c.alts ==>
               c.alts[k] != [] && Homogeneous(c.alts[k]) && forall i :: 0 <= i < |c.alts[k]| ==> c.alts[k][i].kind == k
    ensures AddAll(Upto(c, ks), SlotProps(c, order, k)) == Ok(Upto(c, ks + {k}))
  {
    var u := Upto(c, ks);
    OnlyGrow(c.singles, ks, k);
    OnlyGrow(c.alts, ks, k);
    OnlyGrow(c.multis, ks, k);
    if k in c.alts {
      var xs := c.alts[k];
      assert [] + xs == xs;
      assert SetAlt(u, k, []) == u;
      AltReplay(u, k, [], xs);
    }
  }

  /** An alt-id map kind's properties, added to the card built so far. */
  lemma AddMultiSlot(c: VCard, order: map<PropKind, seq<string>>, ks: set<PropKind>, k: PropKind)
    requires OrdersFor(c, order) && k !in ks && SlotOf(k) == Multi
    requires k !in c.singles && k !in c.alts
    requires k in c.multis ==>
               c.multis[k] != map[] && BucketsValid(c.multis[k]) && BucketsOfKind(c.multis[k], k)
    ensures AddAll(Upto(c, ks), SlotProps(c, order, k)) == Ok(Upto(c, ks + {k}))
  {
    var u := Upto(c, ks);
    OnlyGrow(c.singles, ks, k);
    OnlyGrow(c.alts, ks, k);
    OnlyGrow(c.multis, ks, k);
    if k in c.multis {
      var buckets := c.multis[k];
      var keys := order[k];
      var none: set<string> := {};
      OnlyNone(buckets);
      assert SetMulti(u, k, Part(buckets, none)) == u;
      KeysReplay(u, k, buckets, none, keys);
      assert none + Elements(keys) == Elements(keys);
      OnlyAll(buckets, Elements(keys));
    }
  }

  /** The facts about one kind's slot that a valid card gives. */
  lemma SlotFacts(c: VCard, k: PropKind)
    requires CardValid(c)
    ensures SlotOf(k) != Single ==> k !in c.singles
    ensures SlotOf(k) != Alt ==> k !in c.alts
    ensures SlotOf(k) != Multi ==> k !in c.multis
    ensures k in c.singles ==> c.singles[k].kind == k
    ensures k in c.alts ==>
              c.alts[k] != [] && Homogeneous(c.alts[k]) && forall i :: 0 <= i < |c.alts[k]| ==> c.alts[k][i].kind == k
    ensures k in c.multis ==>
              c.multis[k] != map[] && BucketsValid(c.multis[k]) && BucketsOfKind(c.multis[k], k)
  {
  }

  lemma {:induction false} AddKinds(c: VCard, order: map<PropKind, seq<string>>, ks: set<PropKind>, kinds: seq<PropKind>)
    requires CardValid(c) && OrdersFor(c, order)
    requires forall i :: 0 <= i < |kinds| ==> kinds[i] !in ks
    requires forall i, j :: 0 <= i < j < |kinds| ==> kinds[i] != kinds[j]
    ensures AddAll(Upto(c, ks), KindsProps(c, order, kinds)) == Ok(Upto(c, ks + Elements(kinds)))
    decreases |kinds|
  {
    if kinds == [] {
      assert ks + Elements(kinds) == ks;
    } else {
      var k := kinds[0];
      SlotFacts(c, k);
      match SlotOf(k) {
        case Single => AddSingleSlot(c, order, ks, k);
        case Alt => AddAltSlot(c, order, ks, k);
        case Multi => AddMultiSlot(c, order, ks, k);
      }
      AddAllAppend(Upto(c, ks), SlotProps(c, order, k), KindsProps(c, order, kinds[1..]));
      assert forall i :: 0 <= i < |kinds[1..]| ==> kinds[1..][i] == kinds[i + 1];
      AddKinds(c, order, ks + {k}, kinds[1..]);
      assert (ks + {k}) + Elements(kinds[1..]) == ks + Elements(kinds);
    }
  }

  /** Adding every registered property the card writes, in the order it
      writes them, to the card `parse_vcard` starts from rebuilds the
      card's slots. */
  lemma Rebuild(c: VCard, order: map<PropKind, seq<string>>)
    requires CardValid(c) && OrdersFor(c, order)
    ensures AddAll(EmptyCard(c.version), KindsProps(c, order, DisplayOrder())) == Ok(c.(proprietary := []))
  {
    DisplayOrderAll();
    RebuildFrom(c, order, DisplayOrder());
  }

  /** `Display` writes every kind, each once. */
  lemma DisplayOrderAll()
    ensures forall i, j :: 0 <= i < j < |DisplayOrder()| ==> DisplayOrder()[i] != DisplayOrder()[j]
    ensures forall k :: k in Elements(DisplayOrder())
  {
    var all := DisplayOrder();
    forall i, j | 0 <= i < j < |all|
      ensures all[i] != all[j]
    {
      DisplayOrderDistinct(i, j);
    }
    forall k: PropKind
      ensures k in Elements(all)
    {
      DisplayOrderCovers(k);
    }
  }

  lemma RebuildFrom(c: VCard, order: map<PropKind, seq<string>>, all: seq<PropKind>)
    requires CardValid(c) && OrdersFor(c, order)
    requires forall i, j :: 0 <= i < j < |all| ==> all[i] != all[j]
    requires forall k :: k in Elements(all)
    ensures AddAll(EmptyCard(c.version), KindsProps(c, order, all)) == Ok(c.(proprietary := []))
  {
    var none: set<PropKind> := {};
    OnlyNone(c.singles);
    OnlyNone(c.alts);
    OnlyNone(c.multis);
    assert Upto(c, none) == EmptyCard(c.version);
    AddKinds(c, order, none, all);
    assert none + Elements(all) == Elements(all);
    OnlyAll(c.singles, Elements(all));
    OnlyAll(c.alts, Elements(all));
    OnlyAll(c.multis, Elements(all));
  }

  // ---------------------------------------------------------------------
  // The card read back

  /** A proprietary property whose line reads back as itself (see
      `ProprietaryRoundTrip`): parameters that each read back as themselves,
      already in the order the reader regroups them into, an extension name
      that is a name, a group that is a name, a value on one line. */
  predicate ProprietaryPrintable(pp: ProprietaryProperty)
  {
    && RereadableSegments(pp.parameters)
    && pp.parameters == Reappended(Folding(pp.parameters).params)
    && IsExtensionName(pp.name)
    && NameText(pp.name) && Free(pp.name, '\0')
    && (pp.group.Some? ==> NameText(pp.group.value))
    && Free(pp.value, '\n')
  }

  lemma AllFitDrop(lines: seq<string>, n: nat, max: nat)
    requires AllFit(lines, max) && n <= |lines|
    ensures AllFit(lines[n..], max)
  {
    forall i | 0 <= i < |lines[n..]|
      ensures LineFits(lines[n..][i], max)
    {
      assert lines[n..][i] == lines[n + i];
    }
  }

  /** Each written line of registered properties decodes to its property. */
  lemma PropLinesDecode(ps: seq<Prop>)
    requires forall i :: 0 <= i < |ps| ==> Printable(ps[i])
    ensures forall i :: 0 <= i < |ps| ==> DecodeLine(PropLines(ps)[i]) == Ok(Typed(ps[i]))
  {
    forall i | 0 <= i < |ps|
      ensures DecodeLine(PropLines(ps)[i]) == Ok(Typed(ps[i]))
    {
      PropRoundTrip(ps[i]);
    }
  }

  /** Each written line of proprietary properties decodes to its property. */
  lemma ProprietaryLinesDecode(pps: seq<ProprietaryProperty>)
    requires forall i :: 0 <= i < |pps| ==> ProprietaryPrintable(pps[i])
    ensures forall i :: 0 <= i < |pps| ==> DecodeLine(ProprietaryLines(pps)[i]) == Ok(Property.Proprietary(pps[i]))
  {
    forall i | 0 <= i < |pps|
      ensures DecodeLine(ProprietaryLines(pps)[i]) == Ok(Property.Proprietary(pps[i]))
    {
      ProprietaryRoundTrip(pps[i]);
    }
  }

  /** `s` reads as the property `prop` and leaves `r` to read, with
      nothing discarded. */
  predicate ReadsTo(s: Stream, d: seq<byte>, max: nat, prop: Property, r: Stream)
  {
    var o := ReadProp(s, d, max);
    o.result.Ok? && o.result.value.0 == prop && o.discarded == d && o.rest == r
  }

  /** Each stream of `ss` reads as the property of `props` at the same
      place and leaves the next stream. */
  predicate Reads(ss: seq<Stream>, props: seq<Property>, d: seq<byte>, max: nat)
  {
    && |ss| == |props| + 1
    && forall i :: 0 <= i < |props| ==> ReadsTo(ss[i], d, max, props[i], ss[i + 1])
  }

  /** Each card of `cards`, handed the property of `props` at the same
      place, gives the next card and does not end. */
  predicate Steps(cards: seq<VCard>, props: seq<Property>)
  {
    && |cards| == |props| + 1
    && forall i :: 0 <= i < |props| ==>
         Handle(cards[i], props[i], false) == Next(cards[i + 1])
         && Handle(cards[i], props[i], true) == Next(cards[i + 1])
  }

  /** One property read and handled without ending the card: the loop
      goes on from the stream after it with the card it gives. */
  lemma LoopStep(s: Stream, d: seq<byte>, max: nat, card: VCard, prop: Property, r: Stream, next: VCard)
    requires ReadsTo(s, d, max, prop, r)
    requires Handle(card, prop, false) == Next(next) && Handle(card, prop, true) == Next(next)
    ensures CardLoop(s, d, max, card) == CardLoop(r, d, max, next)
  {
    var o := ReadProp(s, d, max);
    assert Handle(card, prop, o.result.value.1) == Next(next);
  }

  /** The loop runs through reads and steps that go together. */
  lemma {:induction false} LoopRun(ss: seq<Stream>, props: seq<Property>, cards: seq<VCard>, d: seq<byte>, max: nat, n: nat)
    requires Reads(ss, props, d, max) && Steps(cards, props) && n <= |props|
    ensures CardLoop(ss[n], d, max, cards[n]) == CardLoop(ss[|props|], d, max, cards[|props|])
    decreases |props| - n
  {
    if n < |props| {
      LoopStep(ss[n], d, max, cards[n], props[n], ss[n + 1], cards[n + 1]);
      LoopRun(ss, props, cards, d, max, n + 1);
    }
  }

  /** The streams left after each of the lines. */
  function Suffixes(ls: seq<string>, tail: seq<string>): (r: seq<Stream>)
    ensures |r| == |ls| + 1
    ensures forall i :: 0 <= i <= |ls| ==> r[i] == Stream(Wire(ls[i..] + tail), false)
  {
    seq(|ls| + 1, i requires 0 <= i <= |ls| => Stream(Wire(ls[i..] + tail), false))
  }

  lemma ReadsLine(ls: seq<string>, tail: seq<string>, i: nat, d: seq<byte>, max: nat, prop: Property)
    requires i < |ls| && DecodeLine(ls[i]) == Ok(prop) && AllFit(ls + tail, max)
    ensures ReadsTo(Stream(Wire(ls[i..] + tail), false), d, max, prop, Stream(Wire(ls[i + 1..] + tail), false))
  {
    var rest := ls[i + 1..] + tail;
    SplitAt(ls, tail, i);
    ReadPropLine(ls[i], rest, d, max, prop);
  }

  lemma SplitAt<T>(ls: seq<T>, tail: seq<T>, i: nat)
    requires i < |ls|
    ensures ls[i..] + tail == [ls[i]] + (ls[i + 1..] + tail)
    ensures (ls + tail)[i] == ls[i]
    ensures ls[i + 1..] + tail != [] ==> (ls[i + 1..] + tail)[0] == (ls + tail)[i + 1]
  {
  }

  /** Lines that each decode to a property, read in turn. */
  lemma ReadsLines(ls: seq<string>, props: seq<Property>, tail: seq<string>, d: seq<byte>, max: nat)
    requires |ls| == |props| && forall i :: 0 <= i < |ls| ==> DecodeLine(ls[i]) == Ok(props[i])
    requires AllFit(ls + tail, max)
    ensures Reads(Suffixes(ls, tail), props, d, max)
  {
    var ss := Suffixes(ls, tail);
    forall i | 0 <= i < |props|
      ensures ReadsTo(ss[i], d, max, props[i], ss[i + 1])
    {
      ReadsLine(ls, tail, i, d, max, props[i]);
    }
  }

  function TypedProps(ps: seq<Prop>): (r: seq<Property>)
    ensures |r| == |ps| && forall i :: 0 <= i < |ps| ==> r[i] == Typed(ps[i])
  {
    seq(|ps|, i requires 0 <= i < |ps| => Typed(ps[i]))
  }

  function ProprietaryProps(pps: seq<ProprietaryProperty>): (r: seq<Property>)
    ensures |r| == |pps| && forall i :: 0 <= i < |pps| ==> r[i] == Property.Proprietary(pps[i])
  {
    seq(|pps|, i requires 0 <= i < |pps| => Property.Proprietary(pps[i]))
  }

  /** The card after the first `i` properties have been added. */
  function Added(card: VCard, ps: seq<Prop>, i: nat): VCard
    requires i <= |ps|
  {
    match AddAll(card, ps[..i])
    case Ok(c) => c
    case Err(_) => card
  }

  function AddedCards(card: VCard, ps: seq<Prop>): (r: seq<VCard>)
    ensures |r| == |ps| + 1 && forall i :: 0 <= i <= |ps| ==> r[i] == Added(card, ps, i)
  {
    seq(|ps| + 1, i requires 0 <= i <= |ps| => Added(card, ps, i))
  }

  lemma AddedStep(card: VCard, ps: seq<Prop>, i: nat)
    requires AddAll(card, ps).Ok? && i < |ps|
    ensures AddAll(card, ps[..i]).Ok?
    ensures AddProp(Added(card, ps, i), ps[i]) == Ok(Added(card, ps, i + 1))
  {
    AddAllAppend(card, ps[..i], ps[i..]);
    assert ps[..i] + ps[i..] == ps;
    var n := AddAll(card, ps[..i]).value;
    assert ps[i..][0] == ps[i];
    AddAllAppend(card, ps[..i], [ps[i]]);
    assert ps[..i] + [ps[i]] == ps[..i + 1];
  }

  /** Adding the properties one by one steps through the added cards. */
  lemma AddedSteps(card: VCard, ps: seq<Prop>)
    requires AddAll(card, ps).Ok?
    ensures Steps(AddedCards(card, ps), TypedProps(ps))
    ensures AddedCards(card, ps)[0] == card
    ensures AddedCards(card, ps)[|ps|] == AddAll(card, ps).value
  {
    forall i | 0 <= i < |ps|
      ensures AddProp(Added(card, ps, i), ps[i]) == Ok(Added(card, ps, i + 1))
    {
      AddedStep(card, ps, i);
    }
    assert ps[..0] == [] && ps[..|ps|] == ps;
  }

  /** The card after the first `i` proprietary properties are appended. */
  function Appended(card: VCard, pps: seq<ProprietaryProperty>, i: nat): VCard
    requires i <= |pps|
  {
    card.(proprietary := card.proprietary + pps[..i])
  }

  function AppendedCards(card: VCard, pps: seq<ProprietaryProperty>): (r: seq<VCard>)
    ensures |r| == |pps| + 1 && forall i :: 0 <= i <= |pps| ==> r[i] == Appended(card, pps, i)
  {
    seq(|pps| + 1, i requires 0 <= i <= |pps| => Appended(card, pps, i))
  }

  /** Appending the proprietary properties one by one steps through the
      appended cards. */
  lemma AppendedSteps(card: VCard, pps: seq<ProprietaryProperty>)
    ensures Steps(AppendedCards(card, pps), ProprietaryProps(pps))
    ensures AppendedCards(card, pps)[0] == card
    ensures AppendedCards(card, pps)[|pps|] == card.(proprietary := card.proprietary + pps)
  {
    forall i | 0 <= i < |pps|
      ensures Appended(card, pps, i).proprietary + [pps[i]] == Appended(card, pps, i + 1).proprietary
    {
      assert pps[..i] + [pps[i]] == pps[..i + 1];
    }
    assert pps[..0] == [] && pps[..|pps|] == pps;
  }

  /** The lines of registered properties, read one after the other, add
      them to the card in turn. */
  lemma LoopTyped(ps: seq<Prop>, tail: seq<string>, d: seq<byte>, max: nat, card: VCard)
    requires forall i :: 0 <= i < |ps| ==> Printable(ps[i])
    requires AllFit(PropLines(ps) + tail, max)
    requires AddAll(card, ps).Ok?
    ensures CardLoop(Stream(Wire(PropLines(ps) + tail), false), d, max, card)
         == CardLoop(Stream(Wire(tail), false), d, max, AddAll(card, ps).value)
  {
    var ls := PropLines(ps);
    PropLinesDecode(ps);
    ReadsLines(ls, TypedProps(ps), tail, d, max);
    AddedSteps(card, ps);
    LoopRun(Suffixes(ls, tail), TypedProps(ps), AddedCards(card, ps), d, max, 0);
    assert ls[0..] == ls && ls[|ls|..] + tail == tail;
  }

  /** The lines of proprietary properties, read one after the other,
      append them to the card's proprietary list. */
  lemma LoopProprietary(pps: seq<ProprietaryProperty>, tail: seq<string>, d: seq<byte>, max: nat, card: VCard)
    requires forall i :: 0 <= i < |pps| ==> ProprietaryPrintable(pps[i])
    requires AllFit(ProprietaryLines(pps) + tail, max)
    ensures CardLoop(Stream(Wire(ProprietaryLines(pps) + tail), false), d, max, card)
         == CardLoop(Stream(Wire(tail), false), d, max, card.(proprietary := card.proprietary + pps))
  {
    var ls := ProprietaryLines(pps);
    ProprietaryLinesDecode(pps);
    ReadsLines(ls, ProprietaryProps(pps), tail, d, max);
    AppendedSteps(card, pps);
    LoopRun(Suffixes(ls, tail), ProprietaryProps(pps), AppendedCards(card, pps), d, max, 0);
    assert ls[0..] == ls && ls[|ls|..] + tail == tail;
  }

  /** A line of an upper-case name and a one-line value, without group or
      parameters, is dispatched on that name. */
  lemma DecodeFixed(name: string, value: string)
    requires |name| >= 1 && IsUpperWord(name)
    requires Free(value, '\n')
    ensures DecodeLine(name + ":" + value) == Dispatch(name + ":" + value, None, name, Folding([]), value)
  {
    var none: string := [];
    UpperWordIsName(name);
    assert name + ":" + value == LineOf(None, name, none, value);
    TokenizeLine(None, name, none, value);
  }

  lemma DecodeBegin(name: string, value: string)
    requires name == "BEGIN" && value == "VCARD"
    ensures DecodeLine(name + ":" + value) == Ok(Begin(value))
  {
    DecodeFixed(name, value);
    LowerBegin(name);
  }

  lemma LowerBegin(name: string)
    requires name == "BEGIN"
    ensures Lower(name) == "begin"
  {
    assert Lower(name)[0] == 'b';
  }

  lemma DecodeVersion(name: string, v: VersionValue)
    requires name == "VERSION"
    ensures DecodeLine(name + ":" + VersionToken(v)) == Ok(Version(v))
  {
    DecodeFixed(name, VersionToken(v));
    LowerVersion(name);
  }

  lemma LowerVersion(name: string)
    requires name == "VERSION"
    ensures Lower(name) == "version"
  {
    assert Lower(name)[0] == 'v';
  }

  lemma DecodeEnd(name: string, value: string)
    requires name == "END" && value == "VCARD"
    ensures DecodeLine(name + ":" + value) == Ok(End(value))
  {
    DecodeFixed(name, value);
    LowerEnd(name);
  }

  lemma LowerEnd(name: string)
    requires name == "END"
    ensures Lower(name) == "end"
  {
    assert Lower(name)[0] == 'e';
  }

  /** The last line, END:VCARD with nothing after it, ends the card. */
  lemma LoopEnd(name: string, value: string, d: seq<byte>, max: nat, card: VCard)
    requires name == "END" && value == "VCARD"
    requires LineFits(name + ":" + value, max)
    ensures CardLoop(Stream(Wire([name + ":" + value]), false), d, max, card).result == Ok(card)
  {
    var none: seq<string> := [];
    assert [name + ":" + value] + none == [name + ":" + value];
    DecodeEnd(name, value);
    ReadPropLine(name + ":" + value, none, d, max, End(value));
  }

  predicate Printables(ps: seq<Prop>)
  {
    forall i :: 0 <= i < |ps| ==> Printable(ps[i])
  }

  /** Every property the card holds is one whose line reads back as
      itself. */
  predicate CardPrintable(c: VCard)
  {
    && (forall k :: k in c.singles ==> Printable(c.singles[k]))
    && (forall k :: k in c.alts ==> Printables(c.alts[k]))
    && (forall k, key :: k in c.multis && key in c.multis[k] ==> Printables(c.multis[k][key]))
    && (forall i :: 0 <= i < |c.proprietary| ==> ProprietaryPrintable(c.proprietary[i]))
  }

  /** The card's properties are printable, and every line it writes fits
      the reader. */
  predicate Readable(c: VCard, order: map<PropKind, seq<string>>, max: nat)
    requires OrdersFor(c, order)
  {
    CardPrintable(c) && AllFit(CardLines(c, order), max)
  }

  lemma PrintablesAppend(a: seq<Prop>, b: seq<Prop>)
    requires Printables(a) && Printables(b)
    ensures Printables(a + b)
  {
    forall i | 0 <= i < |a + b|
      ensures Printable((a + b)[i])
    {
      if i < |a| {
        assert (a + b)[i] == a[i];
      } else {
        assert (a + b)[i] == b[i - |a|];
      }
    }
  }

  lemma {:induction false} BucketPropsPrintable(buckets: map<string, seq<Prop>>, keys: seq<string>)
    requires forall i :: 0 <= i < |keys| ==> keys[i] in buckets
    requires forall key :: key in buckets ==> Printables(buckets[key])
    ensures Printables(BucketProps(buckets, keys))
    decreases |keys|
  {
    if keys != [] {
      BucketPropsPrintable(buckets, keys[1..]);
      PrintablesAppend(buckets[keys[0]], BucketProps(buckets, keys[1..]));
    }
  }

  lemma SlotPropsPrintable(c: VCard, order: map<PropKind, seq<string>>, k: PropKind)
    requires OrdersFor(c, order) && CardPrintable(c)
    ensures Printables(SlotProps(c, order, k))
  {
    match SlotOf(k) {
      case Single =>
      case Alt =>
      case Multi =>
        if k in c.multis {
          BucketPropsPrintable(c.multis[k], order[k]);
        }
    }
  }

  /** Every property a printable card writes is printable. */
  lemma {:induction false} KindsPropsPrintable(c: VCard, order: map<PropKind, seq<string>>, kinds: seq<PropKind>)
    requires OrdersFor(c, order) && CardPrintable(c)
    ensures Printables(KindsProps(c, order, kinds))
    decreases |kinds|
  {
    if kinds != [] {
      SlotPropsPrintable(c, order, kinds[0]);
      KindsPropsPrintable(c, order, kinds[1..]);
      PrintablesAppend(SlotProps(c, order, kinds[0]), KindsProps(c, order, kinds[1..]));
    }
  }

  /** The registered properties' lines, the proprietary ones and END:VCARD,
      read by the loop of `parse_vcard`, add the former, append the latter,
      and end the card. */
  lemma BodyRun(ps: seq<Prop>, pps: seq<ProprietaryProperty>, lines: seq<string>, card: VCard, bare: VCard,
                result: VCard, d: seq<byte>, max: nat)
    requires Printables(ps)
    requires forall i :: 0 <= i < |pps| ==> ProprietaryPrintable(pps[i])
    requires lines == PropLines(ps) + (ProprietaryLines(pps) + ["END" + ":" + "VCARD"])
    requires AllFit(lines, max)
    requires AddAll(card, ps) == Ok(bare)
    requires result == bare.(proprietary := bare.proprietary + pps)
    ensures CardLoop(Stream(Wire(lines), false), d, max, card).result == Ok(result)
  {
    var pl := ProprietaryLines(pps);
    var e := "END" + ":" + "VCARD";
    var tail := pl + [e];
    AllFitDrop(lines, |PropLines(ps)|, max);
    assert lines[|PropLines(ps)|..] == tail;
    AllFitDrop(tail, |pl|, max);
    assert tail[|pl|..] == [e];
    LoopTyped(ps, tail, d, max, card);
    LoopProprietary(pps, [e], d, max, bare);
    LoopEnd("END", "VCARD", d, max, bare.(proprietary := bare.proprietary + pps));
  }

  /** BEGIN:VCARD then a VERSION, each with more to come, start the loop
      of `parse_vcard` from the empty card of that version. */
  lemma ParseStart(s: Stream, r1: Stream, r2: Stream, v: VersionValue, d: seq<byte>, max: nat)
    requires ReadProp(s, d, max) == PropertyOut(Ok((Begin("VCARD"), true)), d, r1)
    requires ReadProp(r1, d, max) == PropertyOut(Ok((Version(v), true)), d, r2)
    ensures ParseCard(s, d, max) == CardLoop(r2, d, max, EmptyCard(v))
  {
  }

  lemma ReadBeginLine(rest: seq<string>, d: seq<byte>, max: nat)
    requires AllFit(["BEGIN" + ":" + "VCARD"] + rest, max) && rest != []
    ensures ReadProp(Stream(Wire(["BEGIN" + ":" + "VCARD"] + rest), false), d, max)
         == PropertyOut(Ok((Begin("VCARD"), true)), d, Stream(Wire(rest), false))
  {
    var b := "BEGIN" + ":" + "VCARD";
    assert ([b] + rest)[0] == b && ([b] + rest)[1] == rest[0];
    DecodeBegin("BEGIN", "VCARD");
    ReadPropLine(b, rest, d, max, Begin("VCARD"));
  }

  lemma ReadVersionLine(v: VersionValue, rest: seq<string>, d: seq<byte>, max: nat)
    requires AllFit(["VERSION" + ":" + VersionToken(v)] + rest, max) && rest != []
    ensures ReadProp(Stream(Wire(["VERSION" + ":" + VersionToken(v)] + rest), false), d, max)
         == PropertyOut(Ok((Version(v), true)), d, Stream(Wire(rest), false))
  {
    var vl := "VERSION" + ":" + VersionToken(v);
    assert ([vl] + rest)[0] == vl && ([vl] + rest)[1] == rest[0];
    DecodeVersion("VERSION", v);
    ReadPropLine(vl, rest, d, max, Version(v));
  }

  lemma HeaderFits(v: VersionValue, rest: seq<string>, max: nat)
    requires AllFit(["BEGIN" + ":" + "VCARD", "VERSION" + ":" + VersionToken(v)] + rest, max)
    ensures ["BEGIN" + ":" + "VCARD", "VERSION" + ":" + VersionToken(v)] + rest
         == ["BEGIN" + ":" + "VCARD"] + (["VERSION" + ":" + VersionToken(v)] + rest)
    ensures AllFit(["VERSION" + ":" + VersionToken(v)] + rest, max)
  {
    var lines := ["BEGIN" + ":" + "VCARD", "VERSION" + ":" + VersionToken(v)] + rest;
    AllFitDrop(lines, 1, max);
    assert lines[1..] == ["VERSION" + ":" + VersionToken(v)] + rest;
  }

  /** The header lines read as BEGIN:VCARD and the VERSION, each with more
      to come. */
  lemma HeaderReads(v: VersionValue, rest: seq<string>, d: seq<byte>, max: nat)
    requires AllFit(["BEGIN" + ":" + "VCARD", "VERSION" + ":" + VersionToken(v)] + rest, max) && rest != []
    ensures ReadProp(Stream(Wire(["BEGIN" + ":" + "VCARD", "VERSION" + ":" + VersionToken(v)] + rest), false), d, max)
         == PropertyOut(Ok((Begin("VCARD"), true)), d, Stream(Wire(["VERSION" + ":" + VersionToken(v)] + rest), false))
    ensures ReadProp(Stream(Wire(["VERSION" + ":" + VersionToken(v)] + rest), false), d, max)
         == PropertyOut(Ok((Version(v), true)), d, Stream(Wire(rest), false))
  {
    HeaderFits(v, rest, max);
    ReadBeginLine(["VERSION" + ":" + VersionToken(v)] + rest, d, max);
    ReadVersionLine(v, rest, d, max);
  }

  /** BEGIN:VCARD and a VERSION line, followed by lines the loop of
      `parse_vcard` reads into a card from the empty card of that version,
      are read into that card. */
  lemma ParseFrom(v: VersionValue, rest: seq<string>, d: seq<byte>, max: nat, c: VCard)
    requires AllFit(["BEGIN" + ":" + "VCARD", "VERSION" + ":" + VersionToken(v)] + rest, max) && rest != []
    requires CardLoop(Stream(Wire(rest), false), d, max, EmptyCard(v)).result == Ok(c)
    ensures ParseCard(Stream(Wire(["BEGIN" + ":" + "VCARD", "VERSION" + ":" + VersionToken(v)] + rest), false), d, max).result == Ok(c)
  {
    var vl := "VERSION" + ":" + VersionToken(v);
    HeaderReads(v, rest, d, max);
    ParseStart(Stream(Wire(["BEGIN" + ":" + "VCARD", vl] + rest), false), Stream(Wire([vl] + rest), false), Stream(Wire(rest), false), v, d, max);
  }

  /** The lines after VERSION. */
  /** The lines after VERSION: the registered properties, the proprietary
      ones, END. */
  function BodyLines(c: VCard, order: map<PropKind, seq<string>>): (r: seq<string>)
    requires OrdersFor(c, order)
    ensures |r| >= 1 && r[|r| - 1] == "END" + ":" + "VCARD"
  {
    PropLines(KindsProps(c, order, DisplayOrder())) + (ProprietaryLines(c.proprietary) + ["END" + ":" + "VCARD"])
  }

  lemma Regroup<T>(a: seq<T>, b: seq<T>, c: seq<T>, d: seq<T>)
    ensures a + b + c + d == a + (b + (c + d))
  {
  }

  /** The bytes a card is written as are its lines, each ended by CR LF. */
  lemma WrittenWire(c: VCard, order: map<PropKind, seq<string>>)
    requires OrdersFor(c, order)
    ensures Utf8Encode(ShowCard(c, order)) == Wire(CardLines(c, order))
  {
    ShowCardLines(c, order);
    EncodeCrlf(CardLines(c, order));
  }

  lemma BodyFits(c: VCard, order: map<PropKind, seq<string>>, max: nat)
    requires OrdersFor(c, order) && AllFit(CardLines(c, order), max)
    ensures AllFit(BodyLines(c, order), max)
  {
    var lines := CardLines(c, order);
    AllFitDrop(lines, 2, max);
    assert lines[2..] == BodyLines(c, order);
  }

  /** After BEGIN and VERSION, the loop of `parse_vcard` reads the rest of
      the written lines back into the card. */
  lemma ReadBody(c: VCard, order: map<PropKind, seq<string>>, d: seq<byte>, max: nat)
    requires CardValid(c) && OrdersFor(c, order) && Readable(c, order, max)
    ensures CardLoop(Stream(Wire(BodyLines(c, order)), false), d, max, EmptyCard(c.version)).result == Ok(c)
  {
    Rebuild(c, order);
    KindsPropsPrintable(c, order, DisplayOrder());
    BodyFits(c, order, max);
    ReadRebuilt(c, order, d, max);
  }

  /** The same, once the registered properties are known to rebuild the
      card's slots. */
  lemma ReadRebuilt(c: VCard, order: map<PropKind, seq<string>>, d: seq<byte>, max: nat)
    requires OrdersFor(c, order) && AllFit(BodyLines(c, order), max)
    requires Printables(KindsProps(c, order, DisplayOrder()))
    requires forall i :: 0 <= i < |c.proprietary| ==> ProprietaryPrintable(c.proprietary[i])
    requires AddAll(EmptyCard(c.version), KindsProps(c, order, DisplayOrder())) == Ok(c.(proprietary := []))
    ensures CardLoop(Stream(Wire(BodyLines(c, order)), false), d, max, EmptyCard(c.version)).result == Ok(c)
  {
    var ps := KindsProps(c, order, DisplayOrder());
    var bare := c.(proprietary := []);
    ProprietaryRestored(c);
    BodyLinesParts(c, order);
    BodyRun(ps, c.proprietary, BodyLines(c, order), EmptyCard(c.version), bare, c, d, max);
  }

  lemma ProprietaryRestored(c: VCard)
    ensures c.(proprietary := []).(proprietary := c.(proprietary := []).proprietary + c.proprietary) == c
  {
    assert [] + c.proprietary == c.proprietary;
  }

  lemma BodyLinesParts(c: VCard, order: map<PropKind, seq<string>>)
    requires OrdersFor(c, order)
    ensures BodyLines(c, order)
         == PropLines(KindsProps(c, order, DisplayOrder())) + (ProprietaryLines(c.proprietary) + ["END" + ":" + "VCARD"])
  {
  }

  /** Card round trip: `parse_vcard` reads the bytes of the text a valid
      card is written as back into that same card, when each property it
      writes is one whose line reads back as itself and each line fits the
      reader (see `Readable`). */
  lemma ParseWritten(c: VCard, order: map<PropKind, seq<string>>, d: seq<byte>, max: nat)
    requires CardValid(c) && OrdersFor(c, order) && Readable(c, order, max)
    ensures ParseCard(Stream(Utf8Encode(ShowCard(c, order)), false), d, max).result == Ok(c)
  {
    WrittenWire(c, order);
    ReadBody(c, order, d, max);
    ParseFrom(c.version, BodyLines(c, order), d, max, c);
  }
}
