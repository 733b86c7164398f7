// The alt-id containers of a card (vcard/src/models/containers.rs): a
// list whose members share one ALTID, and a map from ALTID to such lists.
// The element type is the property struct `Prop`; `get_alt_id` is
// `Model.GetAltId`. The "preferred" value is chosen, as the code does, by
// comparing alt-ids, not PREF ranks.
module Containers {
  import opened Errors
  import opened Strings
  import opened Model
  import opened Serializer

  // ---------------------------------------------------------------------
  // One alt-id

  /** Every member shares the first member's alt-id. */
  predicate Homogeneous(items: seq<Prop>)
  {
    forall i :: 0 <= i < |items| ==> GetAltId(items[i]) == GetAltId(items[0])
  }

  /** `AltIDContainer::add_value`: an empty list takes any item; otherwise
      the item must carry the first member's alt-id, and is appended. */
  function AltAdd(items: seq<Prop>, item: Prop): Result<seq<Prop>>
  {
    if items == [] then Ok([item])
    else if GetAltId(items[0]) != GetAltId(item) then Err(InvalidAltId(GetAltId(items[0]), GetAltId(item)))
    else Ok(items + [item])
  }

  /** Adding succeeds exactly when the list is empty or the alt-ids agree;
      it appends and keeps the list homogeneous, and a refusal names the
      expected and the offered alt-id. */
  lemma AltAddKeepsHomogeneous(items: seq<Prop>, item: Prop)
    requires Homogeneous(items)
    ensures AltAdd(items, item).Ok? <==> items == [] || GetAltId(item) == GetAltId(items[0])
    ensures AltAdd(items, item).Ok? ==>
              AltAdd(items, item).value == items + [item] && Homogeneous(AltAdd(items, item).value)
    ensures AltAdd(items, item).Err? ==>
              AltAdd(items, item).error == InvalidAltId(GetAltId(items[0]), GetAltId(item))
  {
    if items != [] && GetAltId(item) == GetAltId(items[0]) {
      var xs := items + [item];
      assert xs[0] == items[0];
      assert forall i :: 0 <= i < |xs| ==> GetAltId(xs[i]) == GetAltId(items[0]);
    }
  }

  /** One turn of the `get_prefered_value` loop: the first item is taken;
      a later one replaces it only when its alt-id is strictly smaller. */
  function PreferredStep(acc: Option<Prop>, item: Prop): (r: Option<Prop>)
    ensures r.Some? && (r == acc || r.value == item)
  {
    if acc.None? then Some(item)
    else if StrLess(GetAltId(item), GetAltId(acc.value)) then Some(item)
    else acc
  }

  /** The item `get_prefered_value` ends with. */
  function PreferredOf(items: seq<Prop>): Option<Prop>
    decreases |items|
  {
    if items == [] then None
    else PreferredStep(PreferredOf(items[..|items| - 1]), items[|items| - 1])
  }

  /** The preferred item is absent only for the empty list; otherwise it is
      a member, and no member has a smaller alt-id. */
  lemma {:induction false} PreferredIsLeast(items: seq<Prop>)
    ensures PreferredOf(items).None? <==> items == []
    ensures PreferredOf(items).Some? ==>
              PreferredOf(items).value in items
              && forall i :: 0 <= i < |items| ==> !StrLess(GetAltId(items[i]), GetAltId(PreferredOf(items).value))
    decreases |items|
  {
    if items != [] {
      var init := items[..|items| - 1];
      var last := items[|items| - 1];
      PreferredIsLeast(init);
      var r := PreferredOf(items);
      assert items == init + [last];
      forall i | 0 <= i < |items|
        ensures !StrLess(GetAltId(items[i]), GetAltId(r.value))
      {
        StrLessIrreflexive(GetAltId(r.value));
        var acc := PreferredOf(init);
        if i < |init| {
          assert items[i] == init[i];
          if r.value != acc.value {
            assert r.value == last && StrLess(GetAltId(last), GetAltId(acc.value));
            if StrLess(GetAltId(items[i]), GetAltId(last)) {
              StrLessTransitive(GetAltId(items[i]), GetAltId(last), GetAltId(acc.value));
            }
          }
        } else if acc.Some? && r == acc {
          assert !StrLess(GetAltId(last), GetAltId(acc.value));
        }
      }
    }
  }

  /** In a homogeneous list no alt-id is smaller than another, so the
      preferred item is always the first one added, whatever its PREF. */
  lemma {:induction false} PreferredIsFirst(items: seq<Prop>)
    requires Homogeneous(items) && items != []
    ensures PreferredOf(items) == Some(items[0])
    decreases |items|
  {
    var init := items[..|items| - 1];
    if init != [] {
      assert Homogeneous(init);
      PreferredIsFirst(init);
      StrLessIrreflexive(GetAltId(items[0]));
    }
  }

  /** The `get_prefered_value` loop. */
  method ScanPreferred(items: seq<Prop>) returns (preferred: Option<Prop>)
    ensures preferred == PreferredOf(items)
  {
    preferred := None;
    var i := 0;
    while i < |items|
      invariant 0 <= i <= |items|
      invariant preferred == PreferredOf(items[..i])
    {
      var item := items[i];
      assert items[..i + 1][..i] == items[..i];
      if preferred.None? {
        preferred := Some(item);
      } else if StrLess(GetAltId(item), GetAltId(preferred.value)) {
        preferred := Some(item);
      }
      i := i + 1;
    }
    assert items[..i] == items;
  }

  /** The lines of the members, in order (`Display`). */
  function ShowAll(items: seq<Prop>): string
    decreases |items|
  {
    if items == [] then [] else ShowProp(items[0]) + ShowAll(items[1..])
  }

  /** Adding a member appends its line after the others. */
  lemma {:induction false} ShowAllAppend(items: seq<Prop>, item: Prop)
    ensures ShowAll(items + [item]) == ShowAll(items) + ShowProp(item)
    decreases |items|
  {
    if items == [] {
      assert [item][1..] == [];
      assert ShowProp(item) + [] == ShowProp(item);
    } else {
      assert (items + [item])[1..] == items[1..] + [item];
      ShowAllAppend(items[1..], item);
      ConcatAssoc(ShowProp(items[0]), ShowAll(items[1..]), ShowProp(item));
    }
  }

  /** `AltIDContainer`: the members, in insertion order. */
  class AltIDContainer {
    var items: seq<Prop>

    /** Every member shares one alt-id. */
    predicate Valid()
      reads this
    {
      Homogeneous(items)
    }

    /** `AltIDContainer::new`. */
    constructor ()
      ensures items == [] && Valid()
    {
      items := [];
    }

    /** `AltIDContainer::from_vec`: the list is taken as it is. */
    constructor FromVec(xs: seq<Prop>)
      ensures items == xs
    {
      items := xs;
    }

    /** `add_value`: appends the item, or refuses it and leaves the
        container as it was. */
    method AddValue(item: Prop) returns (r: Result<()>)
      modifies this
      ensures AltAdd(old(items), item).Ok? ==> r == Ok(()) && items == AltAdd(old(items), item).value
      ensures AltAdd(old(items), item).Err? ==>
                r == Err(AltAdd(old(items), item).error) && items == old(items)
      ensures old(Valid()) ==> Valid()
      ensures r.Ok? ==> Display() == old(Display()) + ShowProp(item)
    {
      if |items| == 0 {
        items := items + [item];
        assert items == [item];
        ShowAllAppend([], item);
        return Ok(());
      }
      var prev := GetAltId(items[0]);
      if prev != GetAltId(item) {
        return Err(InvalidAltId(prev, GetAltId(item)));
      }
      if Homogeneous(items) {
        AltAddKeepsHomogeneous(items, item);
      }
      ShowAllAppend(items, item);
      items := items + [item];
      return Ok(());
    }

    /** `get_prefered_value`. */
    method GetPreferredValue() returns (r: Option<Prop>)
      ensures r == PreferredOf(items)
    {
      r := ScanPreferred(items);
    }

    /** `Display`: every member's line, in insertion order. */
    function Display(): string
      reads this
    {
      ShowAll(items)
    }
  }

  // ---------------------------------------------------------------------
  // Many alt-ids

  /** Every bucket is non-empty and holds only members whose alt-id is its
      key. */
  predicate BucketsValid(buckets: map<string, seq<Prop>>)
  {
    forall key :: key in buckets ==>
      buckets[key] != [] && forall i :: 0 <= i < |buckets[key]| ==> GetAltId(buckets[key][i]) == key
  }

  /** `MultiAltIDContainer::add_value`: the item goes to the bucket of its
      alt-id, which is created when missing. */
  function MultiAdd(buckets: map<string, seq<Prop>>, item: Prop): Result<map<string, seq<Prop>>>
  {
    var key := GetAltId(item);
    if key in buckets then
      match AltAdd(buckets[key], item)
      case Err(e) => Err(e)
      case Ok(xs) => Ok(buckets[key := xs])
    else Ok(buckets[key := [item]])
  }

  /** On valid buckets adding never fails: the item is appended to the
      bucket of its alt-id (a new one when missing), the other buckets are
      untouched, and the buckets stay valid. */
  lemma MultiAddNeverFails(buckets: map<string, seq<Prop>>, item: Prop)
    requires BucketsValid(buckets)
    ensures MultiAdd(buckets, item).Ok?
    ensures var key := GetAltId(item);
            var r := MultiAdd(buckets, item).value;
            && r.Keys == buckets.Keys + {key}
            && r[key] == (if key in buckets then buckets[key] else []) + [item]
            && (forall other :: other in buckets && other != key ==> r[other] == buckets[other])
            && BucketsValid(r)
  {
    var key := GetAltId(item);
    if key in buckets {
      var xs := buckets[key];
      assert GetAltId(xs[0]) == key;
      assert Homogeneous(xs);
      AltAddKeepsHomogeneous(xs, item);
    } else {
      assert [] + [item] == [item];
    }
  }

  /** The order a `HashMap` iterates its keys in: each key exactly once. */
  predicate Enumerates(order: seq<string>, buckets: map<string, seq<Prop>>)
  {
    && (forall i, j :: 0 <= i < j < |order| ==> order[i] != order[j])
    && (forall key :: key in buckets ==> key in order)
    && (forall i :: 0 <= i < |order| ==> order[i] in buckets)
  }

  /** One turn of the outer `get_prefered_value` loop: a bucket without a
      preferred item is skipped; otherwise as `PreferredStep`. */
  function MultiStep(acc: Option<Prop>, candidate: Option<Prop>): Option<Prop>
  {
    if candidate.None? then acc else PreferredStep(acc, candidate.value)
  }

  /** The item the outer loop ends with, visiting the buckets in `order`. */
  function MultiPreferred(buckets: map<string, seq<Prop>>, order: seq<string>): Option<Prop>
    requires forall i :: 0 <= i < |order| ==> order[i] in buckets
    decreases |order|
  {
    if order == [] then None
    else MultiStep(MultiPreferred(buckets, order[..|order| - 1]), PreferredOf(buckets[order[|order| - 1]]))
  }

  /** The smallest of the keys, the first one on ties. */
  function MinKey(keys: seq<string>): (m: string)
    requires keys != []
    ensures m in keys
    decreases |keys|
  {
    if |keys| == 1 then keys[0]
    else
      var m := MinKey(keys[..|keys| - 1]);
      if StrLess(keys[|keys| - 1], m) then keys[|keys| - 1] else m
  }

  /** No key is smaller than `MinKey`. */
  lemma {:induction false} MinKeyLeast(keys: seq<string>)
    requires keys != []
    ensures forall i :: 0 <= i < |keys| ==> !StrLess(keys[i], MinKey(keys))
    decreases |keys|
  {
    var m := MinKey(keys);
    StrLessIrreflexive(m);
    if |keys| > 1 {
      var init := keys[..|keys| - 1];
      var last := keys[|keys| - 1];
      MinKeyLeast(init);
      var mi := MinKey(init);
      forall i | 0 <= i < |keys|
        ensures !StrLess(keys[i], m)
      {
        if i < |init| {
          assert keys[i] == init[i];
          if m != mi && StrLess(keys[i], m) {
            StrLessTransitive(keys[i], m, mi);
          }
        } else if m == mi {
          assert !StrLess(last, mi);
        }
      }
    }
  }

  /** On valid buckets the outer loop ends with the first member of the
      bucket whose key is smallest. */
  lemma {:induction false} MultiPreferredIsMinKey(buckets: map<string, seq<Prop>>, order: seq<string>)
    requires BucketsValid(buckets)
    requires forall i :: 0 <= i < |order| ==> order[i] in buckets
    ensures MultiPreferred(buckets, order) == if order == [] then None else Some(buckets[MinKey(order)][0])
    decreases |order|
  {
    if order != [] {
      var init := order[..|order| - 1];
      var key := order[|order| - 1];
      var bucket := buckets[key];
      assert Homogeneous(bucket) by {
        assert GetAltId(bucket[0]) == key;
      }
      PreferredIsFirst(bucket);
      MultiPreferredIsMinKey(buckets, init);
      if init != [] {
        var m := MinKey(init);
        assert GetAltId(buckets[m][0]) == m;
      }
    }
  }

  /** The preferred item does not depend on the order the buckets are
      visited in: it is absent exactly when there are no buckets, and is
      otherwise the first member of the bucket with the smallest key. */
  lemma PreferredIndependentOfOrder(buckets: map<string, seq<Prop>>, order1: seq<string>, order2: seq<string>)
    requires BucketsValid(buckets) && Enumerates(order1, buckets) && Enumerates(order2, buckets)
    ensures MultiPreferred(buckets, order1) == MultiPreferred(buckets, order2)
    ensures MultiPreferred(buckets, order1).None? <==> buckets == map[]
    ensures MultiPreferred(buckets, order1).Some? ==>
              exists key :: key in buckets && MultiPreferred(buckets, order1) == Some(buckets[key][0])
                && forall other :: other in buckets ==> !StrLess(other, key)
  {
    MultiPreferredIsMinKey(buckets, order1);
    MultiPreferredIsMinKey(buckets, order2);
    if order1 == [] {
      assert buckets.Keys == {} by {
        forall key | key in buckets ensures false {
        }
      }
    } else {
      var m1 := MinKey(order1);
      assert m1 in buckets;
      assert order2 != [] by {
        assert m1 in order2;
      }
      var m2 := MinKey(order2);
      MinKeyLeast(order1);
      MinKeyLeast(order2);
      assert !StrLess(m2, m1) by {
        assert m2 in order1;
      }
      assert !StrLess(m1, m2) by {
        assert m1 in order2;
      }
      if m1 != m2 {
        StrLessTotal(m1, m2);
      }
      forall other | other in buckets
        ensures !StrLess(other, m1)
      {
        assert other in order1;
      }
    }
  }

  /** The buckets' texts, one after another in `order` (`Display`). */
  function ShowBuckets(buckets: map<string, seq<Prop>>, order: seq<string>): string
    requires forall i :: 0 <= i < |order| ==> order[i] in buckets
    decreases |order|
  {
    if order == [] then [] else ShowAll(buckets[order[0]]) + ShowBuckets(buckets, order[1..])
  }

  lemma {:induction false} ShowBucketsSplit(buckets: map<string, seq<Prop>>, order: seq<string>, n: nat)
    requires forall i :: 0 <= i < |order| ==> order[i] in buckets
    requires n <= |order|
    ensures ShowBuckets(buckets, order) == ShowBuckets(buckets, order[..n]) + ShowBuckets(buckets, order[n..])
    decreases n
  {
    if n == 0 {
      assert order[..0] == [] && order[0..] == order;
    } else {
      assert order[..n][0] == order[0] && order[..n][1..] == order[1..][..n - 1];
      assert order[n..] == order[1..][n - 1..];
      ShowBucketsSplit(buckets, order[1..], n - 1);
      ConcatAssoc(ShowAll(buckets[order[0]]), ShowBuckets(buckets, order[1..][..n - 1]), ShowBuckets(buckets, order[n..]));
    }
  }

  lemma {:induction false} ShowBucketsSame(a: map<string, seq<Prop>>, b: map<string, seq<Prop>>, order: seq<string>)
    requires forall i :: 0 <= i < |order| ==> order[i] in a && order[i] in b && a[order[i]] == b[order[i]]
    ensures ShowBuckets(a, order) == ShowBuckets(b, order)
    decreases |order|
  {
    if order != [] {
      ShowBucketsSame(a, b, order[1..]);
    }
  }

  /** The text of the buckets around the one at position `i`. */
  lemma ShowBucketsAt(buckets: map<string, seq<Prop>>, order: seq<string>, i: nat)
    requires forall j :: 0 <= j < |order| ==> order[j] in buckets
    requires i < |order|
    ensures ShowBuckets(buckets, order)
         == ShowBuckets(buckets, order[..i]) + ShowAll(buckets[order[i]]) + ShowBuckets(buckets, order[i + 1..])
  {
    ShowBucketsSplit(buckets, order, i);
    var rest := order[i..];
    assert rest[0] == order[i] && rest[1..] == order[i + 1..];
    ConcatAssoc(ShowBuckets(buckets, order[..i]), ShowAll(buckets[order[i]]), ShowBuckets(buckets, order[i + 1..]));
  }

  /** Adding an item to an existing bucket writes its line right after
      that bucket's other lines; every other bucket's text is unchanged. */
  lemma ShowAfterAdd(buckets: map<string, seq<Prop>>, order: seq<string>, item: Prop, i: nat)
    requires BucketsValid(buckets) && Enumerates(order, buckets)
    requires i < |order| && order[i] == GetAltId(item)
    ensures MultiAdd(buckets, item).Ok?
    ensures var after := MultiAdd(buckets, item).value;
            Enumerates(order, after)
            && ShowBuckets(after, order)
               == ShowBuckets(buckets, order[..i]) + (ShowAll(buckets[order[i]]) + ShowProp(item))
                  + ShowBuckets(buckets, order[i + 1..])
  {
    MultiAddNeverFails(buckets, item);
    var key := GetAltId(item);
    var after := MultiAdd(buckets, item).value;
    assert key in buckets by {
      assert order[i] in buckets;
    }
    assert Enumerates(order, after);
    ShowBucketsAt(after, order, i);
    ShowBucketsSame(after, buckets, order[..i]);
    ShowBucketsSame(after, buckets, order[i + 1..]);
    ShowAllAppend(buckets[key], item);
  }

  /** `MultiAltIDContainer`: the buckets of one property, keyed by alt-id.
      Each bucket (an `AltIDContainer` in the source) is held by value. */
  class MultiAltIDContainer {
    var buckets: map<string, seq<Prop>>

    predicate Valid()
      reads this
    {
      BucketsValid(buckets)
    }

    /** `MultiAltIDContainer::new`. */
    constructor ()
      ensures buckets == map[] && Valid()
    {
      buckets := map[];
    }

    /** `add_value`: the item goes to its alt-id's bucket. */
    method AddValue(item: Prop) returns (r: Result<()>)
      modifies this
      ensures MultiAdd(old(buckets), item).Ok? ==> r == Ok(()) && buckets == MultiAdd(old(buckets), item).value
      ensures MultiAdd(old(buckets), item).Err? ==>
                r == Err(MultiAdd(old(buckets), item).error) && buckets == old(buckets)
      ensures old(Valid()) ==> r.Ok? && Valid()
    {
      var key := GetAltId(item);
      if old(Valid()) {
        MultiAddNeverFails(buckets, item);
      }
      if key in buckets {
        var container := buckets[key];
        var added := AltAdd(container, item);
        if added.Err? {
          return Err(added.error);
        }
        buckets := buckets[key := added.value];
      } else {
        buckets := buckets[key := [item]];
      }
      return Ok(());
    }

    /** `get_prefered_value`, visiting the buckets in the map's iteration
        order. */
    method GetPreferredValue(order: seq<string>) returns (r: Option<Prop>)
      requires Enumerates(order, buckets)
      ensures r == MultiPreferred(buckets, order)
    {
      r := None;
      var i := 0;
      while i < |order|
        invariant 0 <= i <= |order|
        invariant r == MultiPreferred(buckets, order[..i])
      {
        assert order[..i + 1][..i] == order[..i];
        var candidate := ScanPreferred(buckets[order[i]]);
        if candidate.Some? {
          if r.None? {
            r := candidate;
          } else if StrLess(GetAltId(candidate.value), GetAltId(r.value)) {
            r := candidate;
          }
        }
        i := i + 1;
      }
      assert order[..i] == order;
    }

    /** `Display`: every bucket's lines, the buckets in the map's iteration
        order. */
    function Display(order: seq<string>): string
      reads this
      requires Enumerates(order, buckets)
    {
      ShowBuckets(buckets, order)
    }
  }
}
