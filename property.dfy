// Decoding one content line into a property (vcard/src/models/property.rs):
// the property pattern that cuts the line into group, name, parameters and
// value; `parse_parameters`; the folding of the parameter list into the
// struct fields; `escaped_split`; the value grammars of the registered
// properties; and the dispatch on the lower-cased name.
module Properties {
  import opened Errors
  import opened Strings
  import opened Parameters
  import opened Model

  // ---------------------------------------------------------------------
  // The property pattern
  //
  // The line is matched, unanchored and leftmost-first, against
  //   (group: [^;:]+ '.')? (name: [^;:]+) (parameter: ';' [^:]+)* ':' (value: .*)
  // At a start position that is not ';' or ':', the name runs to the first
  // ';' or ':'. The parameters, if any, run from there to the first ':'
  // and need at least one character after their ';'. The group, if any,
  // ends at the last '.' that leaves both it and the name non-empty. The
  // value runs to the end of the line or its first line feed.

  /** What the property pattern captures on a line. */
  datatype Captures = Captures(group: Option<string>, name: string, parameters: Option<string>, value: string)

  predicate IsDelimiter(c: char)
  {
    c == ';' || c == ':'
  }

  /** The end of the run of characters other than ';' and ':' from `i`. */
  function RunEnd(s: string, i: nat): (j: nat)
    requires i <= |s|
    ensures i <= j <= |s|
    ensures forall k :: i <= k < j ==> !IsDelimiter(s[k])
    ensures j < |s| ==> IsDelimiter(s[j])
    decreases |s| - i
  {
    if i == |s| || IsDelimiter(s[i]) then i else RunEnd(s, i + 1)
  }

  /** Where the name starts when the group part matches between `i` and
      `k`: just past the last '.' with at least one character before it. */
  function GroupEnd(s: string, i: nat, k: nat): (r: Option<nat>)
    requires i <= k <= |s|
    ensures r.Some? ==> i + 2 <= r.value <= k && s[r.value - 1] == '.'
    ensures r.Some? ==> forall q :: r.value <= q < k ==> s[q] != '.'
    ensures r.None? ==> forall q :: i + 1 <= q < k ==> s[q] != '.'
    decreases k
  {
    if k < i + 2 then None
    else if s[k - 1] == '.' then Some(k)
    else GroupEnd(s, i, k - 1)
  }

  /** A well-formed capture: a non-empty name, parameters that start with
      ';' and hold no ':', a value without a line feed. */
  predicate CapturesShaped(m: Captures)
  {
    && |m.name| >= 1
    && (forall k :: 0 <= k < |m.name| ==> !IsDelimiter(m.name[k]))
    && (m.parameters.Some? ==> |m.parameters.value| >= 2 && m.parameters.value[0] == ';'
                                && Free(m.parameters.value, ':'))
    && Free(m.value, '\n')
  }

  /** The match of the pattern starting at position `i`, if any. */
  function MatchAt(s: string, i: nat): (r: Option<Captures>)
    requires i < |s|
    ensures r.Some? ==> CapturesShaped(r.value)
  {
    if IsDelimiter(s[i]) then None
    else
      var j := RunEnd(s, i);
      match FindFrom(s, ':', j)
      case None => None
      case Some(c) =>
        if c == j + 1 then None
        else
          var e := FindFrom(s, '\n', c + 1).GetOr(|s|);
          var g := GroupEnd(s, i, j - 1);
          Some(Captures(
            if g.Some? then Some(TrimEndDots(s[i..g.value])) else None,
            if g.Some? then s[g.value..j] else s[i..j],
            if c > j then Some(s[j..c]) else None,
            s[c + 1..e]))
  }

  /** The leftmost match at or after position `i`. */
  function SearchFrom(s: string, i: nat): (r: Option<Captures>)
    ensures r.Some? ==> CapturesShaped(r.value)
    decreases |s| - i
  {
    if i >= |s| then None
    else
      match MatchAt(s, i)
      case Some(m) => Some(m)
      case None => SearchFrom(s, i + 1)
  }

  /** `RE.captures(line)`. */
  function Tokenize(line: string): (r: Option<Captures>)
    ensures r.Some? ==> CapturesShaped(r.value)
  {
    SearchFrom(line, 0)
  }

  /** A group or a name that reads back as itself: at least one character
      and no ';', ':' or '.'. */
  predicate NameText(x: string)
  {
    |x| >= 1 && forall k :: 0 <= k < |x| ==> !IsDelimiter(x[k]) && x[k] != '.'
  }

  /** Parameter text the pattern captures whole: nothing, or a ';' and at
      least one more character, with no ':'. */
  predicate ParameterSection(p: string)
  {
    p == [] || (|p| >= 2 && p[0] == ';' && Free(p, ':'))
  }

  /** The content line `group.NAME;params:value`. */
  function LineOf(group: Option<string>, name: string, parameters: string, value: string): string
  {
    (if group.Some? then group.value + "." else "") + name + parameters + ":" + value
  }

  /** Where the parts of `LineOf` sit in it. */
  lemma LineLayout(prefix: string, name: string, parameters: string, value: string)
    ensures var s := prefix + name + parameters + ":" + value;
            var j := |prefix| + |name|;
            var c := j + |parameters|;
            && |s| == c + 1 + |value|
            && s[..|prefix|] == prefix && s[|prefix|..j] == name && s[j..c] == parameters
            && s[c] == ':' && s[c + 1..] == value
            && (forall k :: 0 <= k < |prefix| ==> s[k] == prefix[k])
            && (forall k :: |prefix| <= k < j ==> s[k] == name[k - |prefix|])
            && (forall k :: j <= k < c ==> s[k] == parameters[k - j])
            && (forall k :: c < k < |s| ==> s[k] == value[k - c - 1])
  {
  }

  lemma RunEndAt(s: string, i: nat, j: nat)
    requires i <= j <= |s|
    requires forall k :: i <= k < j ==> !IsDelimiter(s[k])
    requires j < |s| ==> IsDelimiter(s[j])
    ensures RunEnd(s, i) == j
  {
  }

  lemma FindFromAt(s: string, c: char, from: nat, at: nat)
    requires from <= at < |s| && s[at] == c
    requires forall k :: from <= k < at ==> s[k] != c
    ensures FindFrom(s, c, from) == Some(at)
  {
  }

  /** The name run, the first ':' and the absent line feed of a line
      `prefix + name + parameters + ":" + value`. */
  lemma LineRuns(prefix: string, name: string, parameters: string, value: string)
    requires forall k :: 0 <= k < |prefix| ==> !IsDelimiter(prefix[k])
    requires NameText(name)
    requires ParameterSection(parameters)
    requires Free(value, '\n')
    ensures var s := prefix + name + parameters + ":" + value;
            var j := |prefix| + |name|;
            && j + |parameters| + 1 <= |s|
            && !IsDelimiter(s[0])
            && RunEnd(s, 0) == j
            && FindFrom(s, ':', j) == Some(j + |parameters|)
            && FindFrom(s, '\n', j + |parameters| + 1) == None
  {
    var s := prefix + name + parameters + ":" + value;
    var j := |prefix| + |name|;
    var c := j + |parameters|;
    LineLayout(prefix, name, parameters, value);
    assert forall k :: 0 <= k < j ==> !IsDelimiter(s[k]) by {
      forall k | 0 <= k < j ensures !IsDelimiter(s[k]) {
        if k < |prefix| {
          assert s[k] == prefix[k];
        } else {
          assert s[k] == name[k - |prefix|];
        }
      }
    }
    assert IsDelimiter(s[j]) by {
      if parameters == [] { assert s[j] == ':'; } else { assert s[j] == parameters[0]; }
    }
    RunEndAt(s, 0, j);
    assert forall k :: j <= k < c ==> s[k] != ':' by {
      forall k | j <= k < c ensures s[k] != ':' {
        assert s[k] == parameters[k - j];
      }
    }
    FindFromAt(s, ':', j, c);
    assert forall k :: c + 1 <= k < |s| ==> s[k] != '\n' by {
      forall k | c + 1 <= k < |s| ensures s[k] != '\n' {
        assert s[k] == value[k - c - 1];
      }
    }
  }

  /** The group part of `LineOf` ends just past the group's '.'. */
  lemma LineGroup(group: Option<string>, name: string, parameters: string, value: string)
    requires group.Some? ==> NameText(group.value)
    requires NameText(name)
    ensures var s := LineOf(group, name, parameters, value);
            var j := (if group.Some? then |group.value| + 1 else 0) + |name|;
            && j <= |s|
            && GroupEnd(s, 0, j - 1) == (if group.Some? then Some(|group.value| + 1) else None)
            && (group.Some? ==> TrimEndDots(s[0..|group.value| + 1]) == group.value)
  {
    var prefix := if group.Some? then group.value + "." else "";
    var s := LineOf(group, name, parameters, value);
    var j := |prefix| + |name|;
    assert s == prefix + name + parameters + ":" + value;
    LineLayout(prefix, name, parameters, value);
    forall q | 1 <= q < j - 1 && q != |prefix| - 1 ensures s[q] != '.' {
      if q < |prefix| {
        assert s[q] == prefix[q] == group.value[q];
      } else {
        assert s[q] == name[q - |prefix|];
      }
    }
    if group.Some? {
      assert s[|prefix| - 1] == '.';
      assert s[0..|prefix|] == prefix;
      assert prefix[..|prefix| - 1] == group.value;
    }
  }

  /** What the pattern captures at the start of a line, given where its
      name run, group and first ':' end. */
  lemma MatchAtStart(s: string, j: nat, c: nat, g: Option<nat>)
    requires 1 <= j <= c < |s| && c != j + 1
    requires !IsDelimiter(s[0]) && RunEnd(s, 0) == j
    requires FindFrom(s, ':', j) == Some(c) && FindFrom(s, '\n', c + 1) == None
    requires GroupEnd(s, 0, j - 1) == g
    ensures g.Some? ==> g.value <= j
    ensures Tokenize(s) == Some(Captures(
              if g.Some? then Some(TrimEndDots(s[0..g.value])) else None,
              if g.Some? then s[g.value..j] else s[0..j],
              if c > j then Some(s[j..c]) else None,
              s[c + 1..]))
  {
    assert s[c + 1..|s|] == s[c + 1..];
  }

  /** The pattern cuts a line built from a group, a name, parameters and a
      value back into exactly those parts. */
  lemma TokenizeLine(group: Option<string>, name: string, parameters: string, value: string)
    requires group.Some? ==> NameText(group.value)
    requires NameText(name)
    requires ParameterSection(parameters)
    requires Free(value, '\n')
    ensures Tokenize(LineOf(group, name, parameters, value))
         == Some(Captures(group, name, if parameters == [] then None else Some(parameters), value))
  {
    var prefix := if group.Some? then group.value + "." else "";
    var s := LineOf(group, name, parameters, value);
    var j := |prefix| + |name|;
    var c := j + |parameters|;
    assert s == prefix + name + parameters + ":" + value;
    assert forall k :: 0 <= k < |prefix| ==> !IsDelimiter(prefix[k]) by {
      if group.Some? {
        forall k | 0 <= k < |prefix| ensures !IsDelimiter(prefix[k]) {
          if k < |prefix| - 1 { assert prefix[k] == group.value[k]; }
        }
      }
    }
    LineRuns(prefix, name, parameters, value);
    LineGroup(group, name, parameters, value);
    var g := if group.Some? then Some(|prefix|) else None;
    MatchAtStart(s, j, c, g);
    LineLayout(prefix, name, parameters, value);
  }

  // ---------------------------------------------------------------------
  // escaped_split

  /** The loop of `escaped_split` from a given state: a '\' makes the next
      character literal and is itself dropped; an unescaped separator ends
      a piece; the last piece is always pushed (a trailing lone '\' is
      lost). */
  function EscapedFrom(s: string, sep: char, escaped: bool, buf: string, acc: seq<string>): seq<string>
    decreases |s|
  {
    if s == [] then acc + [buf]
    else if escaped then EscapedFrom(s[1..], sep, false, buf + [s[0]], acc)
    else if s[0] == '\\' then EscapedFrom(s[1..], sep, true, buf, acc)
    else if s[0] == sep then EscapedFrom(s[1..], sep, false, [], acc + [buf])
    else EscapedFrom(s[1..], sep, false, buf + [s[0]], acc)
  }

  /** The pieces `escaped_split(item, sep)` yields. */
  function EscapedPieces(item: string, sep: char): seq<string>
  {
    EscapedFrom(item, sep, false, [], [])
  }

  /** `escaped_split`, as the character loop it is. */
  method EscapedSplit(item: string, sep: char) returns (result: seq<string>)
    ensures result == EscapedPieces(item, sep)
  {
    result := [];
    var escaped := false;
    var buf := "";
    var i := 0;
    while i < |item|
      invariant 0 <= i <= |item|
      invariant EscapedFrom(item[i..], sep, escaped, buf, result) == EscapedPieces(item, sep)
    {
      var c := item[i];
      assert item[i..][0] == c && item[i..][1..] == item[i + 1..];
      if escaped {
        buf := buf + [c];
        escaped := false;
      } else if c == '\\' {
        escaped := true;
      } else if c == sep {
        result := result + [buf];
        buf := "";
      } else {
        buf := buf + [c];
      }
      i := i + 1;
    }
    assert item[i..] == [];
    result := result + [buf];
  }

  /** The separators `escaped_split` cuts at: those not preceded by an
      unconsumed '\'. */
  function UnescapedSeparators(s: string, sep: char, escaped: bool): nat
    decreases |s|
  {
    if s == [] then 0
    else if escaped then UnescapedSeparators(s[1..], sep, false)
    else if s[0] == '\\' then UnescapedSeparators(s[1..], sep, true)
    else if s[0] == sep then 1 + UnescapedSeparators(s[1..], sep, false)
    else UnescapedSeparators(s[1..], sep, false)
  }

  lemma {:induction false} EscapedFromCount(s: string, sep: char, escaped: bool, buf: string, acc: seq<string>)
    ensures |EscapedFrom(s, sep, escaped, buf, acc)| == |acc| + 1 + UnescapedSeparators(s, sep, escaped)
    decreases |s|
  {
    if s == [] {
    } else if escaped {
      EscapedFromCount(s[1..], sep, false, buf + [s[0]], acc);
    } else if s[0] == '\\' {
      EscapedFromCount(s[1..], sep, true, buf, acc);
    } else if s[0] == sep {
      EscapedFromCount(s[1..], sep, false, [], acc + [buf]);
    } else {
      EscapedFromCount(s[1..], sep, false, buf + [s[0]], acc);
    }
  }

  /** There is one more piece than there are unescaped separators. */
  lemma EscapedPiecesCount(item: string, sep: char)
    ensures |EscapedPieces(item, sep)| == UnescapedSeparators(item, sep, false) + 1
  {
    EscapedFromCount(item, sep, false, [], []);
  }

  lemma {:induction false} JoinSnoc(sep: string, parts: seq<string>, x: string)
    ensures Join(sep, parts + [x]) == if parts == [] then x else Join(sep, parts) + sep + x
    decreases |parts|
  {
    if |parts| >= 2 {
      assert (parts + [x])[1..] == parts[1..] + [x];
      JoinSnoc(sep, parts[1..], x);
    } else if |parts| == 1 {
      assert (parts + [x])[1..] == [x];
    } else {
      assert parts + [x] == [x];
    }
  }

  /** Appending a piece after `buf` is appending the separator and the
      piece to `buf` as the last piece. */
  lemma JoinExtend(sep: char, acc: seq<string>, buf: string, rest: string)
    ensures Join([sep], acc + [buf] + [rest]) == Join([sep], acc + [buf + ([sep] + rest)])
  {
    JoinSnoc([sep], acc + [buf], rest);
    JoinSnoc([sep], acc, buf);
    JoinSnoc([sep], acc, buf + ([sep] + rest));
    if acc != [] {
      assert Join([sep], acc) + [sep] + (buf + ([sep] + rest)) == Join([sep], acc) + [sep] + buf + [sep] + rest;
    }
  }

  lemma {:induction false} EscapedFromJoin(s: string, sep: char, buf: string, acc: seq<string>)
    requires Free(s, '\\')
    ensures Join([sep], EscapedFrom(s, sep, false, buf, acc)) == Join([sep], acc + [buf + s])
    decreases |s|
  {
    if s == [] {
      assert buf + s == buf;
    } else if s[0] == sep {
      var rest := s[1..];
      var e: string := [];
      assert EscapedFrom(s, sep, false, buf, acc) == EscapedFrom(rest, sep, false, e, acc + [buf]);
      EscapedFromJoin(rest, sep, e, acc + [buf]);
      assert e + rest == rest;
      assert s == [sep] + rest;
      JoinExtend(sep, acc, buf, rest);
    } else {
      assert EscapedFrom(s, sep, false, buf, acc) == EscapedFrom(s[1..], sep, false, buf + [s[0]], acc);
      EscapedFromJoin(s[1..], sep, buf + [s[0]], acc);
      assert buf + [s[0]] + s[1..] == buf + s;
    }
  }

  /** Without backslashes, joining the pieces with the separator gives the
      text back. */
  lemma EscapedPiecesJoin(item: string, sep: char)
    requires Free(item, '\\')
    ensures Join([sep], EscapedPieces(item, sep)) == item
  {
    var e: string := [];
    var none: seq<string> := [];
    EscapedFromJoin(item, sep, e, none);
    assert e + item == item;
    assert none + [item] == [item];
  }

  /** The escaped form of a text: a '\' before every separator and every
      '\'. */
  function Escape(x: string, sep: char): string
  {
    if x == [] then []
    else (if x[0] == sep || x[0] == '\\' then ['\\', x[0]] else [x[0]]) + Escape(x[1..], sep)
  }

  function EscapeAll(parts: seq<string>, sep: char): (r: seq<string>)
    ensures |r| == |parts|
  {
    seq(|parts|, i requires 0 <= i < |parts| => Escape(parts[i], sep))
  }

  lemma {:induction false} EscapeFree(x: string, sep: char)
    requires Free(x, sep) && Free(x, '\\')
    ensures Escape(x, sep) == x
  {
    if x != [] {
      EscapeFree(x[1..], sep);
      assert x == [x[0]] + x[1..];
    }
  }

  lemma {:induction false} EscapedText(x: string, rest: string, sep: char, buf: string, acc: seq<string>)
    requires sep != '\\'
    ensures EscapedFrom(Escape(x, sep) + rest, sep, false, buf, acc) == EscapedFrom(rest, sep, false, buf + x, acc)
    decreases |x|
  {
    if x == [] {
      assert Escape(x, sep) + rest == rest;
      assert buf + x == buf;
    } else {
      var tail := Escape(x[1..], sep) + rest;
      EscapedText(x[1..], rest, sep, buf + [x[0]], acc);
      assert buf + [x[0]] + x[1..] == buf + x;
      if x[0] == sep || x[0] == '\\' {
        var t := ['\\', x[0]] + tail;
        assert Escape(x, sep) + rest == t;
        assert t[1..] == [x[0]] + tail;
        assert EscapedFrom(t, sep, false, buf, acc) == EscapedFrom(t[1..], sep, true, buf, acc);
        assert ([x[0]] + tail)[1..] == tail;
        assert EscapedFrom(t[1..], sep, true, buf, acc) == EscapedFrom(tail, sep, false, buf + [x[0]], acc);
      } else {
        var t := [x[0]] + tail;
        assert Escape(x, sep) + rest == t;
        assert t[1..] == tail;
        assert EscapedFrom(t, sep, false, buf, acc) == EscapedFrom(tail, sep, false, buf + [x[0]], acc);
      }
    }
  }

  lemma {:induction false} EscapedJoinFrom(parts: seq<string>, sep: char, buf: string, acc: seq<string>)
    requires |parts| >= 1 && sep != '\\'
    ensures EscapedFrom(Join([sep], EscapeAll(parts, sep)), sep, false, buf, acc)
         == acc + [buf + parts[0]] + parts[1..]
    decreases |parts|
  {
    var es := EscapeAll(parts, sep);
    if |parts| == 1 {
      EscapedText(parts[0], [], sep, buf, acc);
      assert Escape(parts[0], sep) + [] == Escape(parts[0], sep);
    } else {
      var tail := Join([sep], EscapeAll(parts[1..], sep));
      assert es[1..] == EscapeAll(parts[1..], sep);
      assert Join([sep], es) == Escape(parts[0], sep) + ([sep] + tail);
      EscapedText(parts[0], [sep] + tail, sep, buf, acc);
      assert ([sep] + tail)[1..] == tail;
      EscapedJoinFrom(parts[1..], sep, [], acc + [buf + parts[0]]);
      assert [] + parts[1..][0] == parts[1];
      assert [parts[1]] + parts[1..][1..] == parts[1..];
    }
  }

  /** Escaping each piece and joining with the separator is undone by
      `escaped_split`. */
  lemma EscapedSplitRoundTrip(parts: seq<string>, sep: char)
    requires |parts| >= 1 && sep != '\\'
    ensures EscapedPieces(Join([sep], EscapeAll(parts, sep)), sep) == parts
  {
    var e: string := [];
    var none: seq<string> := [];
    EscapedJoinFrom(parts, sep, e, none);
    assert e + parts[0] == parts[0];
    assert none + [parts[0]] + parts[1..] == parts;
  }

  /** With pieces that hold neither the separator nor a '\', the plain
      join is split back into the same pieces. */
  lemma EscapedSplitJoin(parts: seq<string>, sep: char)
    requires |parts| >= 1 && sep != '\\'
    requires AllFree(parts, sep) && AllFree(parts, '\\')
    ensures EscapedPieces(Join([sep], parts), sep) == parts
  {
    forall i | 0 <= i < |parts|
      ensures EscapeAll(parts, sep)[i] == parts[i]
    {
      EscapeFree(parts[i], sep);
    }
    assert EscapeAll(parts, sep) == parts;
    EscapedSplitRoundTrip(parts, sep);
  }

  // ---------------------------------------------------------------------
  // parse_parameters
  //
  // The source walks the bytes of the text; ';' and '\' are ASCII and no
  // byte of a multi-byte UTF-8 sequence equals either, so walking the
  // characters cuts at the same places and every segment is valid text.

  /** `trim_start_matches(";")`. */
  function TrimLeadingSemicolons(s: string): (r: string)
    ensures |r| <= |s| && r == s[|s| - |r|..]
    ensures r == [] || r[0] != ';'
    ensures forall k :: 0 <= k < |s| - |r| ==> s[k] == ';'
  {
    if s != [] && s[0] == ';' then TrimLeadingSemicolons(s[1..]) else s
  }

  /** The loop of `parse_parameters` from a given state: a ';' not right
      after a '\' ends the segment, which is parsed at once (its error ends
      the loop); the ';' does not become the previous character. Any other
      character, '\' included, is kept in the segment. The last segment is
      always parsed. */
  function ScanFrom(s: string, prev: char, buf: string, acc: seq<Parameter>): Result<seq<Parameter>>
    decreases |s|
  {
    if s == [] then
      match ParseParameter(buf)
      case Err(e) => Err(e)
      case Ok(p) => Ok(acc + [p])
    else if s[0] == ';' && prev != '\\' then
      match ParseParameter(buf)
      case Err(e) => Err(e)
      case Ok(p) => ScanFrom(s[1..], prev, [], acc + [p])
    else ScanFrom(s[1..], s[0], buf + [s[0]], acc)
  }

  /** The result of `parse_parameters(raw)`. */
  function ParameterList(raw: string): Result<seq<Parameter>>
  {
    ScanFrom(TrimLeadingSemicolons(raw), '\0', [], [])
  }

  /** `parse_parameters`, as the loop it is. */
  method ParseParameters(raw: string) returns (r: Result<seq<Parameter>>)
    ensures r == ParameterList(raw)
  {
    var s := TrimLeadingSemicolons(raw);
    var result: seq<Parameter> := [];
    var prev := '\0';
    var buf := "";
    var i := 0;
    while i < |s|
      invariant 0 <= i <= |s|
      invariant ScanFrom(s[i..], prev, buf, result) == ParameterList(raw)
    {
      var c := s[i];
      assert s[i..][0] == c && s[i..][1..] == s[i + 1..];
      if c == ';' && prev != '\\' {
        var param := ParseParameter(buf);
        if param.Err? {
          return Err(param.error);
        }
        result := result + [param.value];
        buf := "";
      } else {
        prev := c;
        buf := buf + [c];
      }
      i := i + 1;
    }
    assert s[i..] == [];
    var param := ParseParameter(buf);
    if param.Err? {
      return Err(param.error);
    }
    r := Ok(result + [param.value]);
  }

  /** Each segment parsed in turn, stopping at the first error. */
  function ParseEach(segs: seq<string>): (r: Result<seq<Parameter>>)
    ensures r.Ok? ==> |r.value| == |segs|
  {
    if segs == [] then Ok([])
    else
      match ParseParameter(segs[0])
      case Err(e) => Err(e)
      case Ok(p) =>
        match ParseEach(segs[1..])
        case Err(e) => Err(e)
        case Ok(ps) => Ok([p] + ps)
  }

  function Prefixed(acc: seq<Parameter>, r: Result<seq<Parameter>>): Result<seq<Parameter>>
  {
    match r
    case Err(e) => Err(e)
    case Ok(ps) => Ok(acc + ps)
  }

  lemma {:induction false} ScanText(x: string, rest: string, prev: char, buf: string, acc: seq<Parameter>)
    requires x != [] && Free(x, ';')
    ensures ScanFrom(x + rest, prev, buf, acc) == ScanFrom(rest, x[|x| - 1], buf + x, acc)
    decreases |x|
  {
    var t := x + rest;
    assert t[0] == x[0] && t[1..] == x[1..] + rest;
    if |x| == 1 {
      assert x[1..] + rest == rest;
      assert buf + [x[0]] == buf + x;
    } else {
      ScanText(x[1..], rest, x[0], buf + [x[0]], acc);
      assert buf + [x[0]] + x[1..] == buf + x;
    }
  }

  lemma {:induction false} ScanSegments(segs: seq<string>, prev: char, acc: seq<Parameter>)
    requires |segs| >= 1
    requires forall i :: 0 <= i < |segs| - 1 ==> segs[i] != [] && segs[i][|segs[i]| - 1] != '\\'
    requires AllFree(segs, ';')
    requires segs[0] == [] ==> prev != '\\'
    ensures ScanFrom(Join(";", segs), prev, [], acc) == Prefixed(acc, ParseEach(segs))
    decreases |segs|
  {
    var first := segs[0];
    if |segs| == 1 {
      ScanLast(first, prev, acc);
      assert ParseEach(segs) == ParseEach([first]);
    } else {
      var tail := Join(";", segs[1..]);
      assert Join(";", segs) == first + (";" + tail);
      ScanStep(first, tail, prev, acc);
      var last := first[|first| - 1];
      match ParseParameter(first)
      case Err(_) =>
        ParseEachCons(segs);
      case Ok(p) =>
        ScanSegments(segs[1..], last, acc + [p]);
        ParseEachCons(segs);
        PrefixedSnoc(acc, p, ParseEach(segs[1..]));
    }
  }

  /** The last segment is parsed when the text ends. */
  lemma ScanLast(first: string, prev: char, acc: seq<Parameter>)
    requires Free(first, ';')
    requires first == [] ==> prev != '\\'
    ensures ScanFrom(first, prev, [], acc) == Prefixed(acc, ParseEach([first]))
  {
    ScanEnd(first, prev, acc);
    ParseEachSingle(first);
    match ParseParameter(first)
    case Err(_) =>
    case Ok(p) =>
  }

  lemma ScanEnd(first: string, prev: char, acc: seq<Parameter>)
    requires Free(first, ';')
    requires first == [] ==> prev != '\\'
    ensures ScanFrom(first, prev, [], acc)
         == match ParseParameter(first) case Err(e) => Err(e) case Ok(p) => Ok(acc + [p])
  {
    var e: string := [];
    if first != [] {
      ScanText(first, [], prev, e, acc);
      assert first + [] == first;
      assert e + first == first;
    }
  }

  lemma ParseEachSingle(x: string)
    ensures ParseEach([x]) == match ParseParameter(x) case Err(e) => Err(e) case Ok(p) => Ok([p])
  {
    assert [x][1..] == [];
    ParseEachCons([x]);
    match ParseParameter(x)
    case Err(_) =>
    case Ok(p) =>
      assert [p] + [] == [p];
  }

  /** A segment followed by an unescaped ';' is parsed and the scan goes on
      after the ';' with an empty segment. */
  lemma ScanStep(first: string, tail: string, prev: char, acc: seq<Parameter>)
    requires first != [] && Free(first, ';') && first[|first| - 1] != '\\'
    ensures ScanFrom(first + (";" + tail), prev, [], acc)
         == match ParseParameter(first)
            case Err(e) => Err(e)
            case Ok(p) => ScanFrom(tail, first[|first| - 1], [], acc + [p])
  {
    var e: string := [];
    var rest := ";" + tail;
    ScanText(first, rest, prev, e, acc);
    assert e + first == first;
    assert rest[0] == ';' && rest[1..] == tail;
  }

  /** `ParseEach` of a non-empty list, one step. */
  lemma ParseEachCons(segs: seq<string>)
    requires |segs| >= 1
    ensures ParseEach(segs)
         == match ParseParameter(segs[0])
            case Err(e) => Err(e)
            case Ok(p) => Prefixed([p], ParseEach(segs[1..]))
  {
  }

  lemma PrefixedSnoc(acc: seq<Parameter>, p: Parameter, r: Result<seq<Parameter>>)
    ensures Prefixed(acc + [p], r) == Prefixed(acc, Prefixed([p], r))
  {
    match r
    case Err(_) =>
    case Ok(ps) => ConcatAssoc(acc, [p], ps);
  }

  lemma TrimRendered(segs: seq<string>)
    requires |segs| >= 1 && segs[0] != [] && AllFree(segs, ';')
    ensures TrimLeadingSemicolons(";" + Join(";", segs)) == Join(";", segs)
  {
    var j := Join(";", segs);
    JoinHead(";", segs);
    assert Free(segs[0], ';');
    assert j[0] != ';';
    assert TrimLeadingSemicolons(j) == j;
    assert (";" + j)[1..] == j;
  }

  /** Segments written after one ';' each are read back one by one, as
      long as no segment but the last is empty or ends in '\'. */
  lemma ParametersOfSegments(segs: seq<string>)
    requires |segs| >= 1 && segs[0] != []
    requires forall i :: 0 <= i < |segs| - 1 ==> segs[i] != [] && segs[i][|segs[i]| - 1] != '\\'
    requires AllFree(segs, ';')
    ensures ParameterList(";" + Join(";", segs)) == ParseEach(segs)
  {
    TrimRendered(segs);
    var none: seq<Parameter> := [];
    ScanSegments(segs, '\0', none);
    match ParseEach(segs)
    case Err(_) =>
    case Ok(ps) => assert none + ps == ps;
  }

  /** A trailing ';' leaves an empty last segment, which has no '=': the
      whole list is refused even when every other segment is a parameter. */
  lemma TrailingSemicolonRefused(segs: seq<string>)
    requires |segs| >= 1
    requires forall i :: 0 <= i < |segs| ==> segs[i] != [] && segs[i][|segs[i]| - 1] != '\\'
    requires AllFree(segs, ';')
    requires ParseEach(segs).Ok?
    ensures ParameterList(";" + Join(";", segs) + ";") == Err(InvalidLine("parameter has no = sign", ""))
  {
    var e: string := [];
    var all := segs + [e];
    assert all[0] == segs[0];
    assert forall i :: 0 <= i < |all| - 1 ==> all[i] == segs[i];
    assert AllFree(all, ';');
    JoinSnoc(";", segs, e);
    assert Join(";", segs) + ";" + e == Join(";", segs) + ";";
    ConcatAssoc(";", Join(";", segs), ";");
    ParametersOfSegments(all);
    EachSnocEmpty(segs);
  }

  lemma {:induction false} EachSnocEmpty(segs: seq<string>)
    requires ParseEach(segs).Ok?
    ensures ParseEach(segs + [""]) == Err(InvalidLine("parameter has no = sign", ""))
    decreases |segs|
  {
    if segs == [] {
      assert segs + [""] == [""];
      assert ParseParameter("") == Err(InvalidLine("parameter has no = sign", ""));
    } else {
      assert (segs + [""])[1..] == segs[1..] + [""];
      EachSnocEmpty(segs[1..]);
    }
  }

  /** A ';' right after a '\' does not end the segment, and the '\' stays
      in it. */
  lemma EscapedSemicolonKept(a: string, b: string)
    requires Free(a, ';') && Free(b, ';')
    ensures ParameterList(";" + a + "\\;" + b) == ParseEach([a + "\\;" + b])
  {
    var x := a + "\\";
    var e: string := [];
    var none: seq<Parameter> := [];
    EscapedSemicolonText(a, b);
    ScanText(x, ";" + b, '\0', e, none);
    assert e + x == x;
    assert x[|x| - 1] == '\\';
    ScanEscapedTail(x, b);
  }

  lemma EscapedSemicolonText(a: string, b: string)
    requires Free(a, ';')
    ensures TrimLeadingSemicolons(";" + a + "\\;" + b) == a + "\\" + (";" + b)
    ensures a + "\\" + ";" + b == a + "\\;" + b
  {
    var s := ";" + a + "\\;" + b;
    var x := a + "\\";
    var t := x + (";" + b);
    ConcatAssoc(a, "\\", ";");
    assert "\\" + ";" == "\\;";
    ConcatAssoc(x, ";", b);
    ConcatAssoc(";", a, "\\;");
    ConcatAssoc(";", a + "\\;", b);
    ConcatAssoc(a, "\\;", b);
    assert s == ";" + t;
    assert s[1..] == t;
    assert t[0] != ';';
    assert TrimLeadingSemicolons(t) == t;
  }

  lemma ScanEscapedTail(x: string, b: string)
    requires x != [] && x[|x| - 1] == '\\' && Free(b, ';')
    ensures ScanFrom(";" + b, '\\', x, []) == ParseEach([x + ";" + b])
  {
    var y := x + ";";
    var seg := x + ";" + b;
    var none: seq<Parameter> := [];
    assert (";" + b)[0] == ';' && (";" + b)[1..] == b;
    assert ScanFrom(";" + b, '\\', x, none) == ScanFrom(b, ';', y, none);
    if b != [] {
      ScanText(b, [], ';', y, none);
      assert b + [] == b;
    } else {
      assert y == seg;
    }
    assert ScanFrom(b, ';', y, none) == ScanFrom([], if b == [] then ';' else b[|b| - 1], seg, none);
    match ParseParameter(seg)
    case Err(_) =>
    case Ok(p) =>
      assert ParseEach([seg][1..]) == Ok([]);
      assert [p] + [] == [p];
      assert none + [p] == [p];
  }

  // ---------------------------------------------------------------------
  // Folding the parameter list into the struct fields

  /** The parameter fields filled so far and the proprietary parameters
      kept, as the folding loop of `from_str` holds them in its locals. */
  datatype Folded = Folded(params: Params, proprietary: seq<Parameter>)

  /** One turn of the folding loop: a single-valued parameter overwrites
      its field, a TYPE list is appended to the one already there, a
      proprietary parameter is pushed. */
  function FoldStep(f: Folded, p: Parameter): Folded
  {
    var ps := f.params;
    match p
    case Pid(x) => f.(params := ps.(pid := Some(x)))
    case AltId(a) => f.(params := ps.(altid := Some(a)))
    case MediaType(m) => f.(params := ps.(mediatype := Some(m)))
    case TimeZone(t) => f.(params := ps.(tz := Some(t)))
    case Geo(g) => f.(params := ps.(geo := Some(g)))
    case SortAs(xs) => f.(params := ps.(sortAs := Some(xs)))
    case CalScale(c) => f.(params := ps.(calscale := Some(c)))
    case Value(t) => f.(params := ps.(valueType := Some(t)))
    case Type(ts) =>
      f.(params := ps.(typeParam := Some(if ps.typeParam.Some? then ps.typeParam.value + ts else ts)))
    case Language(l) => f.(params := ps.(language := Some(l)))
    case Pref(n) => f.(params := ps.(pref := Some(n)))
    case Label(l) => f.(params := ps.(labelText := Some(l)))
    case Proprietary(_) => f.(proprietary := f.proprietary + [p])
  }

  function FoldFrom(f: Folded, ps: seq<Parameter>): Folded
    decreases |ps|
  {
    if ps == [] then f else FoldFrom(FoldStep(f, ps[0]), ps[1..])
  }

  /** The fields and proprietary parameters the folding loop ends with. */
  function Folding(ps: seq<Parameter>): Folded
  {
    FoldFrom(Folded(NoParams, []), ps)
  }

  /** The folding loop of `from_str`, over its mutable locals. */
  method FoldParameters(parameters: seq<Parameter>) returns (f: Folded)
    ensures f == Folding(parameters)
  {
    var pid: Option<Pid> := None;
    var altid: Option<string> := None;
    var mediatype: Option<string> := None;
    var tz: Option<string> := None;
    var geo: Option<string> := None;
    var sortAs: Option<seq<string>> := None;
    var calscale: Option<string> := None;
    var typeParam: Option<seq<string>> := None;
    var valueType: Option<ValueDataType> := None;
    var pref: Option<u8> := None;
    var language: Option<string> := None;
    var labelText: Option<string> := None;
    var proprietary: seq<Parameter> := [];
    var i := 0;
    while i < |parameters|
      invariant 0 <= i <= |parameters|
      invariant FoldFrom(Folded(Params(altid, labelText, language, geo, tz, pid, pref, valueType, typeParam,
                                       mediatype, calscale, sortAs), proprietary),
                         parameters[i..]) == Folding(parameters)
    {
      var param := parameters[i];
      assert parameters[i..][0] == param && parameters[i..][1..] == parameters[i + 1..];
      match param {
        case Pid(x) => pid := Some(x);
        case AltId(a) => altid := Some(a);
        case MediaType(m) => mediatype := Some(m);
        case TimeZone(t) => tz := Some(t);
        case Geo(g) => geo := Some(g);
        case SortAs(xs) => sortAs := Some(xs);
        case CalScale(c) => calscale := Some(c);
        case Value(t) => valueType := Some(t);
        case Type(ts) =>
          if typeParam.Some? {
            typeParam := Some(typeParam.value + ts);
          } else {
            typeParam := Some(ts);
          }
        case Language(l) => language := Some(l);
        case Pref(n) => pref := Some(n);
        case Label(l) => labelText := Some(l);
        case Proprietary(_) => proprietary := proprietary + [param];
      }
      i := i + 1;
    }
    assert parameters[i..] == [];
    f := Folded(Params(altid, labelText, language, geo, tz, pid, pref, valueType, typeParam,
                       mediatype, calscale, sortAs), proprietary);
  }

  /** The struct field a parameter fills; a proprietary parameter fills
      none. */
  function FieldOf(p: Parameter): Option<Field>
  {
    match p
    case Label(_) => Some(LabelField)
    case Language(_) => Some(LanguageField)
    case Value(_) => Some(ValueTypeField)
    case Pref(_) => Some(PrefField)
    case AltId(_) => Some(AltIdField)
    case Pid(_) => Some(PidField)
    case Type(_) => Some(TypeField)
    case MediaType(_) => Some(MediaTypeField)
    case CalScale(_) => Some(CalScaleField)
    case SortAs(_) => Some(SortAsField)
    case Geo(_) => Some(GeoField)
    case TimeZone(_) => Some(TzField)
    case Proprietary(_) => None
  }

  /** The last parameter of the list that fills the field `fd`. */
  function LastFilling(ps: seq<Parameter>, fd: Field): (r: Option<Parameter>)
    ensures r.Some? ==> r.value in ps && FieldOf(r.value) == Some(fd)
    ensures r.None? ==> forall i :: 0 <= i < |ps| ==> FieldOf(ps[i]) != Some(fd)
    decreases |ps|
  {
    if ps == [] then None
    else if FieldOf(ps[|ps| - 1]) == Some(fd) then Some(ps[|ps| - 1])
    else LastFilling(ps[..|ps| - 1], fd)
  }

  /** All TYPE lists of the parameter list, concatenated in order. */
  function TypesIn(ps: seq<Parameter>): seq<string>
    decreases |ps|
  {
    if ps == [] then []
    else TypesIn(ps[..|ps| - 1]) + (if ps[|ps| - 1].Type? then ps[|ps| - 1].types else [])
  }

  /** The proprietary parameters of the list, in order. */
  function ProprietaryIn(ps: seq<Parameter>): (r: seq<Parameter>)
    ensures forall i :: 0 <= i < |r| ==> r[i].Proprietary? && r[i] in ps
    decreases |ps|
  {
    if ps == [] then []
    else ProprietaryIn(ps[..|ps| - 1]) + (if ps[|ps| - 1].Proprietary? then [ps[|ps| - 1]] else [])
  }

  lemma {:induction false} FoldFromSnoc(f: Folded, ps: seq<Parameter>, p: Parameter)
    ensures FoldFrom(f, ps + [p]) == FoldStep(FoldFrom(f, ps), p)
    decreases |ps|
  {
    if ps == [] {
      assert ps + [p] == [p];
      assert [p][1..] == [];
    } else {
      assert (ps + [p])[0] == ps[0];
      assert (ps + [p])[1..] == ps[1..] + [p];
      FoldFromSnoc(FoldStep(f, ps[0]), ps[1..], p);
    }
  }

  /** The content of the field `fd`, as the parameter that would fill it
      with that content. */
  function FieldValue(ps: Params, fd: Field): (r: Option<Parameter>)
    ensures r.Some? ==> FieldOf(r.value) == Some(fd)
  {
    match fd
    case GroupField => None
    case AltIdField => if ps.altid.Some? then Some(AltId(ps.altid.value)) else None
    case LabelField => if ps.labelText.Some? then Some(Label(ps.labelText.value)) else None
    case LanguageField => if ps.language.Some? then Some(Language(ps.language.value)) else None
    case GeoField => if ps.geo.Some? then Some(Geo(ps.geo.value)) else None
    case TzField => if ps.tz.Some? then Some(TimeZone(ps.tz.value)) else None
    case PidField => if ps.pid.Some? then Some(Parameter.Pid(ps.pid.value)) else None
    case PrefField => if ps.pref.Some? then Some(Pref(ps.pref.value)) else None
    case ValueTypeField => if ps.valueType.Some? then Some(Value(ps.valueType.value)) else None
    case TypeField => if ps.typeParam.Some? then Some(Type(ps.typeParam.value)) else None
    case MediaTypeField => if ps.mediatype.Some? then Some(MediaType(ps.mediatype.value)) else None
    case CalScaleField => if ps.calscale.Some? then Some(CalScale(ps.calscale.value)) else None
    case SortAsField => if ps.sortAs.Some? then Some(SortAs(ps.sortAs.value)) else None
  }

  /** One turn of the loop sets a single-valued field exactly when the
      parameter fills it. */
  lemma FoldStepFills(f: Folded, p: Parameter, fd: Field)
    requires fd != TypeField
    ensures FieldValue(FoldStep(f, p).params, fd) == if FieldOf(p) == Some(fd) then Some(p) else FieldValue(f.params, fd)
  {
  }

  /** A single-valued field ends up holding the last parameter that fills
      it, and stays empty when none does. */
  lemma {:induction false} FoldKeepsLast(ps: seq<Parameter>, fd: Field)
    requires fd != TypeField && fd != GroupField
    ensures FieldValue(Folding(ps).params, fd) == LastFilling(ps, fd)
    decreases |ps|
  {
    if ps != [] {
      var init := ps[..|ps| - 1];
      var p := ps[|ps| - 1];
      assert init + [p] == ps;
      FoldFromSnoc(Folded(NoParams, []), init, p);
      FoldStepFills(Folding(init), p, fd);
      FoldKeepsLast(init, fd);
    } else {
      assert FieldValue(NoParams, fd) == None;
    }
  }

  /** TYPE lists are concatenated in order; the field stays empty only
      when there is no TYPE parameter. */
  lemma {:induction false} FoldConcatenatesTypes(ps: seq<Parameter>)
    ensures Folding(ps).params.typeParam == if LastFilling(ps, TypeField).None? then None else Some(TypesIn(ps))
    decreases |ps|
  {
    if ps != [] {
      var init := ps[..|ps| - 1];
      var p := ps[|ps| - 1];
      assert init + [p] == ps;
      FoldFromSnoc(Folded(NoParams, []), init, p);
      FoldConcatenatesTypes(init);
      assert TypesIn(ps) == TypesIn(init) + (if p.Type? then p.types else []);
      if p.Type? {
        if LastFilling(init, TypeField).None? {
          TypesAbsent(init);
          assert [] + p.types == p.types;
        }
      } else {
        assert TypesIn(init) + [] == TypesIn(init);
      }
    }
  }

  /** Proprietary parameters are kept, in order. */
  lemma {:induction false} FoldKeepsProprietary(ps: seq<Parameter>)
    ensures Folding(ps).proprietary == ProprietaryIn(ps)
    decreases |ps|
  {
    if ps != [] {
      var init := ps[..|ps| - 1];
      var p := ps[|ps| - 1];
      assert init + [p] == ps;
      FoldFromSnoc(Folded(NoParams, []), init, p);
      FoldKeepsProprietary(init);
      if !p.Proprietary? {
        assert ProprietaryIn(init) + [] == ProprietaryIn(init);
      }
    }
  }

  lemma {:induction false} TypesAbsent(ps: seq<Parameter>)
    requires LastFilling(ps, TypeField).None?
    ensures TypesIn(ps) == []
    decreases |ps|
  {
    if ps != [] {
      assert FieldOf(ps[|ps| - 1]) != Some(TypeField);
      TypesAbsent(ps[..|ps| - 1]);
    }
  }

  // ---------------------------------------------------------------------
  // The value grammars

  /** `filter_map(filter_and_transform)`: the non-empty pieces, in order. */
  function NonEmpty(xs: seq<string>): (r: seq<string>)
    ensures |r| <= |xs|
    ensures forall i :: 0 <= i < |r| ==> r[i] != [] && r[i] in xs
    ensures (forall i :: 0 <= i < |xs| ==> xs[i] != []) ==> r == xs
  {
    if xs == [] then []
    else (if xs[0] == [] then [] else [xs[0]]) + NonEmpty(xs[1..])
  }

  /** The positions of an N (`n` = 5) or ADR (`n` = 7) value: the value
      split at unescaped ';', each position split at unescaped ',' without
      its empty items; missing positions are empty, extra ones ignored. */
  function PositionsOf(value: string, n: nat): (r: seq<seq<string>>)
    ensures |r| == n
  {
    var items := EscapedPieces(value, ';');
    seq(n, i requires 0 <= i < n => if i < |items| then NonEmpty(EscapedPieces(items[i], ',')) else [])
  }

  /** GENDER: `sex;identity`, cut at the first ';'. The identity is always
      present, the sex only when its token is not empty. */
  function GenderOf(value: string): Result<PropValue>
  {
    match SplitOnce(value, ';')
    case None => Err(InvalidSyntax("gender property must include a semicolon (;)", "Gender"))
    case Some((sex, identity)) =>
      if sex == [] then Ok(GenderValue(None, Some(identity)))
      else
        match ParseSex(sex)
        case Err(e) => Err(e)
        case Ok(x) => Ok(GenderValue(Some(x), Some(identity)))
  }

  /** CLIENTPIDMAP: a `u8` before the first ';' and the URI after it;
      further ';'-separated parts are ignored. */
  function ClientPidMapOf(value: string): Result<PropValue>
  {
    var parts := Split(value, ';');
    match ParseU8(parts[0])
    case Err(e) => Err(e)
    case Ok(d) =>
      if |parts| == 1 then Err(InvalidLine("expected clientpidmap value to have two parts separated by ';'", value))
      else Ok(PidMap(d, parts[1]))
  }

  /** The value of a registered property, by its grammar. */
  function ValueOf(k: PropKind, value: string): (r: Result<PropValue>)
    ensures r.Ok? ==> ValueShaped(k, r.value)
  {
    match k
    case N => Ok(Positions(PositionsOf(value, 5)))
    case ADR => Ok(Positions(PositionsOf(value, 7)))
    case NICKNAME => Ok(Items(EscapedPieces(value, ',')))
    case CATEGORIES => Ok(Items(NonEmpty(EscapedPieces(value, ','))))
    case ORG => Ok(Items(NonEmpty(EscapedPieces(value, ';'))))
    case GENDER => GenderOf(value)
    case KIND => Ok(KindOf(ParseKindValue(value)))
    case CLIENTPIDMAP => ClientPidMapOf(value)
    case _ => Ok(PropValue.Text(value))
  }

  /** The value grammar as `from_str` runs it, through the `escaped_split`
      loop. */
  method DecodeValue(k: PropKind, value: string) returns (r: Result<PropValue>)
    ensures r == ValueOf(k, value)
  {
    match k
    case N =>
      var positions := SplitPositions(value, 5);
      r := Ok(Positions(positions));
    case ADR =>
      var positions := SplitPositions(value, 7);
      r := Ok(Positions(positions));
    case NICKNAME =>
      var items := EscapedSplit(value, ',');
      r := Ok(Items(items));
    case CATEGORIES =>
      var items := EscapedSplit(value, ',');
      r := Ok(Items(NonEmpty(items)));
    case ORG =>
      var items := EscapedSplit(value, ';');
      r := Ok(Items(NonEmpty(items)));
    case _ =>
      r := ValueOf(k, value);
  }

  /** The N and ADR grammar: the first `n` positions are taken in turn,
      an exhausted split giving empty positions. */
  method SplitPositions(value: string, n: nat) returns (positions: seq<seq<string>>)
    ensures positions == PositionsOf(value, n)
  {
    var items := EscapedSplit(value, ';');
    positions := [];
    var i := 0;
    while i < n
      invariant 0 <= i <= n
      invariant |positions| == i
      invariant forall j :: 0 <= j < i ==> positions[j] == PositionsOf(value, n)[j]
    {
      var position: seq<string> := [];
      if i < |items| {
        var pieces := EscapedSplit(items[i], ',');
        position := NonEmpty(pieces);
      }
      positions := positions + [position];
      i := i + 1;
    }
  }

  /** The struct a registered name builds: the parameters it has no field
      for are dropped, and so is the group when it has no group field. */
  function BuildProp(k: PropKind, group: Option<string>, ps: Params, value: string): (r: Result<Prop>)
    ensures r.Ok? <==> ValueOf(k, value).Ok?
    ensures r.Ok? ==> WellShaped(r.value) && r.value.kind == k
    ensures r.Ok? && GroupField in Fields(k) ==> r.value.group == group
  {
    match ValueOf(k, value)
    case Err(e) => Err(e)
    case Ok(v) =>
      Ok(Prop(k, if GroupField in Fields(k) then group else None, Restrict(ps, Fields(k)), v))
  }

  // ---------------------------------------------------------------------
  // Dispatch on the name

  /** What a content line decodes to. */
  datatype Property =
    | Begin(value: string)
    | End(value: string)
    | Version(version: VersionValue)
    | Typed(prop: Prop)
    | Proprietary(proprietary: ProprietaryProperty)

  /** The registered property a lower-cased name selects. */
  function KindNamed(id: string): Option<PropKind>
  {
    if id == "source" then Some(SOURCE)
    else if id == "kind" then Some(KIND)
    else if id == "fn" then Some(FN)
    else if id == "n" then Some(N)
    else if id == "nickname" then Some(NICKNAME)
    else if id == "photo" then Some(PHOTO)
    else if id == "bday" then Some(BDAY)
    else if id == "anniversary" then Some(ANNIVERSARY)
    else if id == "gender" then Some(GENDER)
    else if id == "adr" then Some(ADR)
    else if id == "tel" then Some(TEL)
    else if id == "email" then Some(EMAIL)
    else if id == "impp" then Some(IMPP)
    else if id == "lang" then Some(LANG)
    else if id == "tz" then Some(TZ)
    else if id == "geo" then Some(GEO)
    else if id == "title" then Some(TITLE)
    else if id == "role" then Some(ROLE)
    else if id == "categories" then Some(CATEGORIES)
    else if id == "org" then Some(ORG)
    else if id == "member" then Some(MEMBER)
    else if id == "related" then Some(RELATED)
    else if id == "logo" then Some(LOGO)
    else if id == "note" then Some(NOTE)
    else if id == "prodid" then Some(PRODID)
    else if id == "rev" then Some(REV)
    else if id == "sound" then Some(SOUND)
    else if id == "uid" then Some(UID)
    else if id == "clientidmap" then Some(CLIENTPIDMAP)
    else if id == "url" then Some(URL)
    else if id == "key" then Some(KEY)
    else if id == "fburl" then Some(FBURL)
    else if id == "caladuri" then Some(CALADURI)
    else if id == "caluri" then Some(CALURI)
    else if id == "xml" then Some(XML)
    else None
  }

  /** Every struct's dispatch name selects that struct, and none is one of
      the names handled before the registered ones. */
  lemma KindNamedDispatch(k: PropKind)
    ensures KindNamed(DispatchName(k)) == Some(k)
    ensures DispatchName(k) != "begin" && DispatchName(k) != "end" && DispatchName(k) != "version"
  {
    if k == SOURCE || k == KIND || k == XML || k == FN || k == N || k == NICKNAME {
      PersonalKindsNamed(k);
    } else if k == PHOTO || k == BDAY || k == ANNIVERSARY || k == GENDER || k == ADR || k == TEL {
      IdentityKindsNamed(k);
    } else if k == EMAIL || k == IMPP || k == LANG || k == TZ || k == GEO || k == TITLE {
      ContactKindsNamed(k);
    } else if k == ROLE || k == LOGO || k == ORG {
      OrganizationalKindsNamed(k);
    } else if k == MEMBER || k == RELATED || k == CATEGORIES {
      RelationalKindsNamed(k);
    } else if k == NOTE || k == PRODID || k == REV {
      ExplanatoryKindsNamed(k);
    } else if k == SOUND || k == UID || k == CLIENTPIDMAP {
      IdentifierKindsNamed(k);
    } else if k == URL || k == KEY || k == FBURL {
      ResourceKindsNamed(k);
    } else {
      CalendarKindsNamed(k);
    }
  }

  lemma PersonalKindsNamed(k: PropKind)
    requires k == SOURCE || k == KIND || k == XML || k == FN || k == N || k == NICKNAME
    ensures KindNamed(DispatchName(k)) == Some(k)
    ensures DispatchName(k) != "begin" && DispatchName(k) != "end" && DispatchName(k) != "version"
  {
    match k {
      case SOURCE => assert KindNamed("source") == Some(SOURCE);
      case KIND => assert KindNamed("kind") == Some(KIND);
      case XML => assert KindNamed("xml") == Some(XML);
      case FN => assert KindNamed("fn") == Some(FN);
      case N => assert KindNamed("n") == Some(N);
      case NICKNAME => assert KindNamed("nickname") == Some(NICKNAME);
    }
  }

  lemma IdentityKindsNamed(k: PropKind)
    requires k == PHOTO || k == BDAY || k == ANNIVERSARY || k == GENDER || k == ADR || k == TEL
    ensures KindNamed(DispatchName(k)) == Some(k)
    ensures DispatchName(k) != "begin" && DispatchName(k) != "end" && DispatchName(k) != "version"
  {
    match k {
      case PHOTO => assert KindNamed("photo") == Some(PHOTO);
      case BDAY => assert KindNamed("bday") == Some(BDAY);
      case ANNIVERSARY => assert KindNamed("anniversary") == Some(ANNIVERSARY);
      case GENDER => assert KindNamed("gender") == Some(GENDER);
      case ADR => assert KindNamed("adr") == Some(ADR);
      case TEL => assert KindNamed("tel") == Some(TEL);
    }
  }

  lemma ContactKindsNamed(k: PropKind)
    requires k == EMAIL || k == IMPP || k == LANG || k == TZ || k == GEO || k == TITLE
    ensures KindNamed(DispatchName(k)) == Some(k)
    ensures DispatchName(k) != "begin" && DispatchName(k) != "end" && DispatchName(k) != "version"
  {
    match k {
      case EMAIL => assert KindNamed("email") == Some(EMAIL);
      case IMPP => assert KindNamed("impp") == Some(IMPP);
      case LANG => assert KindNamed("lang") == Some(LANG);
      case TZ => assert KindNamed("tz") == Some(TZ);
      case GEO => assert KindNamed("geo") == Some(GEO);
      case TITLE => assert KindNamed("title") == Some(TITLE);
    }
  }

  lemma OrganizationalKindsNamed(k: PropKind)
    requires k == ROLE || k == LOGO || k == ORG
    ensures KindNamed(DispatchName(k)) == Some(k)
    ensures DispatchName(k) != "begin" && DispatchName(k) != "end" && DispatchName(k) != "version"
  {
    match k {
      case ROLE => assert KindNamed("role") == Some(ROLE);
      case LOGO => assert KindNamed("logo") == Some(LOGO);
      case ORG => assert KindNamed("org") == Some(ORG);
    }
  }

  lemma RelationalKindsNamed(k: PropKind)
    requires k == MEMBER || k == RELATED || k == CATEGORIES
    ensures KindNamed(DispatchName(k)) == Some(k)
    ensures DispatchName(k) != "begin" && DispatchName(k) != "end" && DispatchName(k) != "version"
  {
    match k {
      case MEMBER => assert KindNamed("member") == Some(MEMBER);
      case RELATED => assert KindNamed("related") == Some(RELATED);
      case CATEGORIES => assert KindNamed("categories") == Some(CATEGORIES);
    }
  }

  lemma ExplanatoryKindsNamed(k: PropKind)
    requires k == NOTE || k == PRODID || k == REV
    ensures KindNamed(DispatchName(k)) == Some(k)
    ensures DispatchName(k) != "begin" && DispatchName(k) != "end" && DispatchName(k) != "version"
  {
    match k {
      case NOTE => assert KindNamed("note") == Some(NOTE);
      case PRODID => assert KindNamed("prodid") == Some(PRODID);
      case REV => assert KindNamed("rev") == Some(REV);
    }
  }

  lemma IdentifierKindsNamed(k: PropKind)
    requires k == SOUND || k == UID || k == CLIENTPIDMAP
    ensures KindNamed(DispatchName(k)) == Some(k)
    ensures DispatchName(k) != "begin" && DispatchName(k) != "end" && DispatchName(k) != "version"
  {
    match k {
      case SOUND => assert KindNamed("sound") == Some(SOUND);
      case UID => assert KindNamed("uid") == Some(UID);
      case CLIENTPIDMAP => assert KindNamed("clientidmap") == Some(CLIENTPIDMAP);
    }
  }

  lemma ResourceKindsNamed(k: PropKind)
    requires k == URL || k == KEY || k == FBURL
    ensures KindNamed(DispatchName(k)) == Some(k)
    ensures DispatchName(k) != "begin" && DispatchName(k) != "end" && DispatchName(k) != "version"
  {
    match k {
      case URL => assert KindNamed("url") == Some(URL);
      case KEY => assert KindNamed("key") == Some(KEY);
      case FBURL => assert KindNamed("fburl") == Some(FBURL);
    }
  }

  lemma CalendarKindsNamed(k: PropKind)
    requires k == CALADURI || k == CALURI
    ensures KindNamed(DispatchName(k)) == Some(k)
    ensures DispatchName(k) != "begin" && DispatchName(k) != "end" && DispatchName(k) != "version"
  {
    match k {
      case CALADURI => assert KindNamed("caladuri") == Some(CALADURI);
      case CALURI => assert KindNamed("caluri") == Some(CALURI);
    }
  }

  /** The recognised parameters of an unregistered property, re-appended
      after its proprietary ones in a fixed order; VALUE is not among them. */
  function Reappended(ps: Params): seq<Parameter>
  {
    (if ps.altid.Some? then [AltId(ps.altid.value)] else [])
    + (if ps.pid.Some? then [Parameter.Pid(ps.pid.value)] else [])
    + (if ps.mediatype.Some? then [MediaType(ps.mediatype.value)] else [])
    + (if ps.tz.Some? then [TimeZone(ps.tz.value)] else [])
    + (if ps.geo.Some? then [Geo(ps.geo.value)] else [])
    + (if ps.sortAs.Some? then [SortAs(ps.sortAs.value)] else [])
    + (if ps.calscale.Some? then [CalScale(ps.calscale.value)] else [])
    + (if ps.labelText.Some? then [Label(ps.labelText.value)] else [])
    + (if ps.typeParam.Some? then [Type(ps.typeParam.value)] else [])
    + (if ps.pref.Some? then [Pref(ps.pref.value)] else [])
    + (if ps.language.Some? then [Language(ps.language.value)] else [])
  }

  /** The property the (NUL-trimmed) name selects, case-insensitively. */
  function Dispatch(line: string, group: Option<string>, name: string, f: Folded, value: string): Result<Property>
  {
    var id := Lower(name);
    if id == "begin" then Ok(Begin(value))
    else if id == "end" then Ok(End(value))
    else if id == "version" then
      (if value == "4.0" then Ok(Version(V4))
       else if value == "3.0" then Ok(Version(V3))
       else Err(InvalidVersion(value)))
    else
      match KindNamed(id)
      case Some(k) =>
        (match BuildProp(k, group, f.params, value)
         case Err(e) => Err(e)
         case Ok(p) => Ok(Typed(p)))
      case None =>
        if !IsExtensionName(name) then Err(InvalidName(name, line))
        else Ok(Property.Proprietary(ProprietaryProperty(name, group, value, f.proprietary + Reappended(f.params))))
  }

  /** `Property::from_str`. */
  function DecodeLine(line: string): Result<Property>
  {
    match Tokenize(line)
    case None => Err(InvalidLine("does not match property pattern", line))
    case Some(m) =>
      var parsed := if m.parameters.Some? then ParameterList(m.parameters.value) else Ok([]);
      match parsed
      case Err(e) => Err(e)
      case Ok(ps) => Dispatch(line, m.group, TrimNul(m.name), Folding(ps), m.value)
  }

  /** `Property::from_str`, running the parameter and folding loops. */
  method PropertyFromStr(line: string) returns (r: Result<Property>)
    ensures r == DecodeLine(line)
  {
    var captures := Tokenize(line);
    if captures.None? {
      return Err(InvalidLine("does not match property pattern", line));
    }
    var m := captures.value;
    var name := TrimNul(m.name);
    var parameters: seq<Parameter> := [];
    if m.parameters.Some? {
      var parsed := ParseParameters(m.parameters.value);
      if parsed.Err? {
        return Err(parsed.error);
      }
      parameters := parsed.value;
    }
    var f := FoldParameters(parameters);
    var id := Lower(name);
    var kind := KindNamed(id);
    if id != "begin" && id != "end" && id != "version" && kind.Some? {
      var v := DecodeValue(kind.value, m.value);
      if v.Err? {
        return Err(v.error);
      }
      var k := kind.value;
      r := Ok(Typed(Prop(k, if GroupField in Fields(k) then m.group else None, Restrict(f.params, Fields(k)), v.value)));
    } else {
      r := Dispatch(line, m.group, name, f, m.value);
    }
  }
}
