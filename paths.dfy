/**
 * Path resolution (`_resolve_path`) and the dotted path strings accepted by
 * `get`, `get_from_root` and `get_from_parent`.
 */
module Paths {
  import opened Values

  // ---------------------------------------------------------------
  // Resolution
  // ---------------------------------------------------------------

  /** `d.get(k)` on an object: the value of the first entry with key `k`, else null. */
  function Lookup(entries: seq<(string, Json)>, k: string): Json {
    if entries == [] then JNull
    else if entries[0].0 == k then entries[0].1
    else Lookup(entries[1..], k)
  }

  predicate HasKey(entries: seq<(string, Json)>, k: string) {
    exists i :: 0 <= i < |entries| && entries[i].0 == k
  }

  /** A key the object does not hold reads as null. */
  lemma {:induction false} LookupMiss(entries: seq<(string, Json)>, k: string)
    requires !HasKey(entries, k)
    ensures Lookup(entries, k) == JNull
  {
    if entries != [] {
      assert entries[0].0 != k;
      assert !HasKey(entries[1..], k) by {
        forall i | 0 <= i < |entries[1..]| ensures entries[1..][i].0 != k {
          assert entries[1..][i] == entries[i + 1];
        }
      }
      LookupMiss(entries[1..], k);
    }
  }

  /** In an object without repeated keys, each entry is found by its own key. */
  lemma {:induction false} LookupUnique(entries: seq<(string, Json)>, i: nat)
    requires UniqueKeys(entries) && i < |entries|
    ensures Lookup(entries, entries[i].0) == entries[i].1
  {
    if i > 0 {
      assert entries[0].0 != entries[i].0;
      assert UniqueKeys(entries[1..]) by {
        forall a, b | 0 <= a < b < |entries[1..]| ensures entries[1..][a].0 != entries[1..][b].0 {
          assert entries[1..][a] == entries[a + 1] && entries[1..][b] == entries[b + 1];
        }
      }
      LookupUnique(entries[1..], i - 1);
      assert entries[1..][i - 1] == entries[i];
    }
  }

  /**
   * One iteration of the resolution loop. A string segment looks a key up in
   * a mapping; an int segment is never a key of a JSON object. An int segment
   * indexes a list when it is in range. Anything else is a miss.
   */
  function Step(v: Json, seg: Segment): Json {
    match v
    case JObj(es) => if seg.S? then Lookup(es, seg.name) else JNull
    case JArr(xs) => if seg.I? && 0 <= seg.pos < |xs| then xs[seg.pos] else JNull
    case _ => JNull
  }

  /** `_resolve_path(obj, path)`. */
  function Resolve(obj: Json, path: seq<Segment>): Json
    decreases |path|
  {
    if path == [] then obj else Resolve(Step(obj, path[0]), path[1..])
  }

  /** Once a step misses, the rest of the path cannot recover. */
  lemma {:induction false} ResolveNullAbsorbs(path: seq<Segment>)
    ensures Resolve(JNull, path) == JNull
  {
    if path != [] {
      ResolveNullAbsorbs(path[1..]);
    }
  }

  /** Resolving `p + q` is resolving `p`, then `q` from where `p` ended. */
  lemma {:induction false} ResolveAppend(obj: Json, p: seq<Segment>, q: seq<Segment>)
    ensures Resolve(obj, p + q) == Resolve(Resolve(obj, p), q)
    decreases |p|
  {
    if p != [] {
      assert (p + q)[0] == p[0] && (p + q)[1..] == p[1..] + q;
      ResolveAppend(Step(obj, p[0]), p[1..], q);
    } else {
      assert p + q == q;
    }
  }

  /** The empty path returns the object; every kind of miss yields `None`. */
  lemma ResolveCases(obj: Json, seg: Segment, rest: seq<Segment>)
    ensures Resolve(obj, []) == obj
    ensures obj.JObj? && seg.S? && !HasKey(obj.entries, seg.name) ==> Resolve(obj, [seg] + rest) == JNull
    ensures obj.JObj? && seg.I? ==> Resolve(obj, [seg] + rest) == JNull
    ensures obj.JArr? && seg.I? && !(0 <= seg.pos < |obj.elems|) ==> Resolve(obj, [seg] + rest) == JNull
    ensures obj.JArr? && seg.S? ==> Resolve(obj, [seg] + rest) == JNull
    ensures (obj.JNull? || obj.JInt? || obj.JStr?) ==> Resolve(obj, [seg] + rest) == JNull
  {
    assert ([seg] + rest)[0] == seg && ([seg] + rest)[1..] == rest;
    ResolveNullAbsorbs(rest);
    if obj.JObj? && seg.S? && !HasKey(obj.entries, seg.name) {
      LookupMiss(obj.entries, seg.name);
    }
  }

  /** The loop of `_resolve_path`, with its early returns. */
  method ResolvePath(obj: Json, path: seq<Segment>) returns (value: Json)
    ensures value == Resolve(obj, path)
  {
    value := obj;
    for i := 0 to |path|
      invariant Resolve(value, path[i..]) == Resolve(obj, path)
    {
      var segment := path[i];
      assert path[i..][0] == segment && path[i..][1..] == path[i + 1..];
      match value {
        case JObj(es) =>
          value := if segment.S? then Lookup(es, segment.name) else JNull;
        case JArr(xs) =>
          if segment.I? && 0 <= segment.pos < |xs| {
            value := xs[segment.pos];
          } else {
            ResolveNullAbsorbs(path[i + 1..]);
            return JNull;
          }
        case _ =>
          ResolveNullAbsorbs(path[i + 1..]);
          return JNull;
      }
    }
  }

  // ---------------------------------------------------------------
  // Dotted paths: "a.0.b"
  // ---------------------------------------------------------------

  /** `s.split(".")`. */
  function SplitDots(s: string): (parts: seq<string>)
    ensures |parts| >= 1
    ensures forall i :: 0 <= i < |parts| ==> '.' !in parts[i]
  {
    if s == [] then [""]
    else
      var rest := SplitDots(s[1..]);
      if s[0] == '.' then [""] + rest else [[s[0]] + rest[0]] + rest[1..]
  }

  /** A piece of a dotted path: all-digit pieces are list positions. */
  function ToSegment(piece: string): Segment {
    if AllDigits(piece) then I(DigitsValue(piece)) else S(piece)
  }

  /** Drop the empty pieces, convert the rest. */
  function SegmentsOf(pieces: seq<string>): seq<Segment> {
    if pieces == [] then []
    else (if pieces[0] == "" then [] else [ToSegment(pieces[0])]) + SegmentsOf(pieces[1..])
  }

  /** The segments a dotted path string denotes. */
  function ParsePath(s: string): seq<Segment> {
    SegmentsOf(SplitDots(s))
  }

  /** A segment that a dotted path can spell and parse back to itself. */
  predicate Dottable(seg: Segment) {
    match seg
    case S(n) => n != "" && '.' !in n && !AllDigits(n)
    case I(k) => k >= 0
  }

  function SegText(seg: Segment): string {
    match seg
    case S(n) => n
    case I(k) => Decimal(k)
  }

  /** The spelling of each segment, in path order. */
  function SegTexts(segs: seq<Segment>): (r: seq<string>)
    ensures |r| == |segs|
    ensures forall i :: 0 <= i < |segs| ==> r[i] == SegText(segs[i])
  {
    if segs == [] then [] else [SegText(segs[0])] + SegTexts(segs[1..])
  }

  /** The dotted spelling of a path. */
  function PathText(segs: seq<Segment>): string {
    JoinSep(".", SegTexts(segs))
  }

  /** Splitting on dots and joining with dots gives the string back. */
  lemma {:induction false} SplitJoin(s: string)
    ensures JoinSep(".", SplitDots(s)) == s
  {
    if s != [] {
      SplitJoin(s[1..]);
      var rest := SplitDots(s[1..]);
      if s[0] == '.' {
        assert ([""] + rest)[1..] == rest;
      } else {
        var parts := [[s[0]] + rest[0]] + rest[1..];
        assert parts[1..] == rest[1..];
        if |rest| > 1 {
          assert JoinSep(".", rest) == rest[0] + "." + JoinSep(".", rest[1..]);
        }
      }
    }
  }

  lemma {:induction false} SplitPrefix(w: string, t: string)
    requires '.' !in w
    ensures SplitDots(w + t) == [w + SplitDots(t)[0]] + SplitDots(t)[1..]
  {
    if w != [] {
      assert (w + t)[0] == w[0] && (w + t)[1..] == w[1..] + t;
      SplitPrefix(w[1..], t);
      assert [w[0]] + (w[1..] + SplitDots(t)[0]) == w + SplitDots(t)[0];
    } else {
      var parts := SplitDots(t);
      assert w + t == t && w + parts[0] == parts[0];
      assert [parts[0]] + parts[1..] == parts;
    }
  }

  /** Joining dot-free pieces with dots and splitting again gives the pieces back. */
  lemma {:induction false} JoinSplit(parts: seq<string>)
    requires |parts| >= 1
    requires forall i :: 0 <= i < |parts| ==> '.' !in parts[i]
    ensures SplitDots(JoinSep(".", parts)) == parts
  {
    if |parts| == 1 {
      SplitPrefix(parts[0], "");
      assert parts[0] + "" == parts[0];
    } else {
      var rest := parts[1..];
      JoinSplit(rest);
      var j := JoinSep(".", rest);
      assert ("." + j)[0] == '.' && ("." + j)[1..] == j;
      assert SplitDots("." + j) == [""] + rest;
      SplitPrefix(parts[0], "." + j);
      assert JoinSep(".", parts) == parts[0] + ("." + j);
      assert parts[0] + "" == parts[0];
    }
  }

  lemma {:induction false} SegmentsOfShape(pieces: seq<string>)
    requires forall i :: 0 <= i < |pieces| ==> '.' !in pieces[i]
    ensures forall i :: 0 <= i < |SegmentsOf(pieces)| ==> Dottable(SegmentsOf(pieces)[i])
  {
    if pieces != [] {
      SegmentsOfShape(pieces[1..]);
    }
  }

  /**
   * A parsed dotted path holds no empty segment, no name with a dot in it
   * and no all-digit name (those became ints), and no negative position.
   */
  lemma ParsePathShape(s: string)
    ensures forall i :: 0 <= i < |ParsePath(s)| ==> Dottable(ParsePath(s)[i])
  {
    SegmentsOfShape(SplitDots(s));
  }

  lemma ToSegmentOfText(seg: Segment)
    requires Dottable(seg)
    ensures ToSegment(SegText(seg)) == seg
  {
    if seg.I? {
      NatDigitsValue(seg.pos);
    }
  }

  lemma {:induction false} SegmentsOfTexts(segs: seq<Segment>)
    requires forall i :: 0 <= i < |segs| ==> Dottable(segs[i])
    ensures SegmentsOf(SegTexts(segs)) == segs
  {
    if segs != [] {
      SegmentsOfTexts(segs[1..]);
      ToSegmentOfText(segs[0]);
      assert SegText(segs[0]) != "" by {
        if segs[0].I? {
          assert |NatDigits(segs[0].pos)| > 0;
        }
      }
      assert segs == [segs[0]] + segs[1..];
    }
  }

  /** Every path of dottable segments survives spelling it as a dotted string and parsing it back. */
  lemma ParsePathRoundTrip(segs: seq<Segment>)
    requires forall i :: 0 <= i < |segs| ==> Dottable(segs[i])
    ensures ParsePath(PathText(segs)) == segs
  {
    var texts := SegTexts(segs);
    if segs == [] {
      assert PathText(segs) == "";
    } else {
      forall i | 0 <= i < |texts| ensures '.' !in texts[i] {
        if segs[i].I? {
          assert AllDigits(NatDigits(segs[i].pos));
        }
      }
      JoinSplit(texts);
      SegmentsOfTexts(segs);
    }
  }

  /** `get("a.0.b")` addresses key "a", position 0, key "b"; empty pieces are dropped. */
  /** A path naming one key, such as `get("name")`. */
  lemma ParsePathSingleKey(s: string)
    requires s != [] && '.' !in s && !IsDigit(s[0])
    ensures ParsePath(s) == [S(s)]
  {
    assert JoinSep(".", [s]) == s;
    JoinSplit([s]);
    assert !AllDigits(s);
    assert SegmentsOf([s]) == [ToSegment(s)] + SegmentsOf([s][1..]);
    assert [s][1..] == [];
  }

  /** `"a.0.b"` spells the path `a, 0, b`. */
  lemma ParsePathMixed()
    ensures ParsePath("a.0.b") == [S("a"), I(0), S("b")]
  {
    var abc := [S("a"), I(0), S("b")];
    assert !IsDigit("a"[0]) && !IsDigit("b"[0]);
    assert DigitChar(0) == '0';
    var texts := SegTexts(abc);
    assert texts == ["a", "0", "b"];
    assert JoinSep(".", ["b"]) == "b";
    assert JoinSep(".", ["0", "b"]) == "0.b";
    assert JoinSep(".", texts) == "a.0.b";
    assert PathText(abc) == "a.0.b";
    ParsePathRoundTrip(abc);
  }

  /** Empty pieces of a dotted path are dropped. */
  lemma ParsePathDropsEmpty()
    ensures ParsePath(".x..7.") == [S("x"), I(7)]
  {
    var pieces := ["", "x", "", "7", ""];
    assert JoinSep(".", pieces[4..]) == "";
    assert JoinSep(".", pieces[3..]) == "7.";
    assert JoinSep(".", pieces[2..]) == ".7.";
    assert JoinSep(".", pieces[1..]) == "x..7.";
    assert JoinSep(".", pieces) == ".x..7.";
    JoinSplit(pieces);
    assert DigitsValue("7") == 7 by {
      assert "7"[..0] == "";
    }
    assert !IsDigit("x"[0]);
    assert SegmentsOf(pieces[4..]) == [];
    assert SegmentsOf(pieces[3..]) == [I(7)];
    assert SegmentsOf(pieces[2..]) == [I(7)];
    assert SegmentsOf(pieces[1..]) == [S("x"), I(7)];
  }
}
