/**
 * The values a mapping works on: a JSON-like tree of nulls, integers,
 * strings, arrays and objects, the path segments that address parts of it,
 * Python's `str()` of such a value, and an insertion-ordered dictionary.
 */
module Values {

  /** One step of a path: a mapping key or a sequence position. */
  datatype Segment = S(name: string) | I(pos: int)

  /**
   * A JSON-like value. `JNull` stands for Python's `None`, which is also what
   * every lookup miss produces, so a stored null and a miss are the same value.
   * An object keeps its entries in insertion order, as a Python dict does.
   */
  datatype Json =
    | JNull
    | JInt(n: int)
    | JStr(s: string)
    | JArr(elems: seq<Json>)
    | JObj(entries: seq<(string, Json)>)

  /** Python dicts never hold a key twice; objects built from them do not either. */
  ghost predicate UniqueKeys(entries: seq<(string, Json)>) {
    forall i, j :: 0 <= i < j < |entries| ==> entries[i].0 != entries[j].0
  }

  // ---------------------------------------------------------------
  // Decimal digits
  // ---------------------------------------------------------------

  predicate IsDigit(c: char) {
    '0' <= c <= '9'
  }

  /** `s.isdigit()` for ASCII digits: non-empty and digits only. */
  predicate AllDigits(s: string) {
    |s| > 0 && forall i :: 0 <= i < |s| ==> IsDigit(s[i])
  }

  function DigitChar(d: nat): char
    requires d < 10
  {
    (('0' as int) + d) as char
  }

  /** The value of a string of decimal digits (`int(s)`), leading zeros allowed. */
  function DigitsValue(s: string): nat
    requires forall i :: 0 <= i < |s| ==> IsDigit(s[i])
  {
    if s == [] then 0
    else DigitsValue(s[..|s| - 1]) * 10 + DigitOf(s[|s| - 1])
  }

  function DigitOf(c: char): nat
    requires IsDigit(c)
  {
    (c as int) - ('0' as int)
  }

  /** The shortest decimal spelling of a natural number. */
  function NatDigits(n: nat): (r: string)
    ensures AllDigits(r)
  {
    if n < 10 then [DigitChar(n)] else NatDigits(n / 10) + [DigitChar(n % 10)]
  }

  /** `int(str(n)) == n` for every natural number. */
  lemma {:induction false} NatDigitsValue(n: nat)
    ensures DigitsValue(NatDigits(n)) == n
  {
    var r := NatDigits(n);
    if n >= 10 {
      NatDigitsValue(n / 10);
      assert r[..|r| - 1] == NatDigits(n / 10);
    }
  }

  /** Python's `str()` of an int. */
  function Decimal(n: int): string {
    if n < 0 then "-" + NatDigits(-n) else NatDigits(n)
  }

  // ---------------------------------------------------------------
  // Python's str() and repr()
  // ---------------------------------------------------------------

  /** `sep.join(parts)`. */
  function JoinSep(sep: string, parts: seq<string>): string {
    if |parts| == 0 then ""
    else if |parts| == 1 then parts[0]
    else parts[0] + sep + JoinSep(sep, parts[1..])
  }

  /** `str(v)`: strings are themselves, ints are decimal, containers use `repr`. */
  function Text(v: Json): string
    decreases v, 1
  {
    match v
    case JNull => "None"
    case JInt(n) => Decimal(n)
    case JStr(s) => s
    case JArr(xs) => "[" + JoinSep(", ", seq(|xs|, i requires 0 <= i < |xs| => Repr(xs[i]))) + "]"
    case JObj(es) =>
      "{" + JoinSep(", ", seq(|es|, i requires 0 <= i < |es| => "'" + es[i].0 + "': " + Repr(es[i].1))) + "}"
  }

  /** `repr(v)`: like `str(v)`, but a string is quoted. */
  function Repr(v: Json): string
    decreases v, 2
  {
    if v.JStr? then "'" + v.s + "'" else Text(v)
  }

  // ---------------------------------------------------------------
  // Insertion-ordered dictionaries
  // ---------------------------------------------------------------

  /**
   * A Python dict: a map together with the order in which its keys were
   * first inserted. Assigning to a present key keeps its position.
   */
  datatype OMap<K(==,!new), V> = OMap(keys: seq<K>, m: map<K, V>) {

    ghost predicate Valid() {
      && (forall i, j :: 0 <= i < j < |keys| ==> keys[i] != keys[j])
      && (forall k :: k in m <==> k in keys)
    }

    /** Assignment: the value of `k` becomes `v`; a new key goes last. */
    function Put(k: K, v: V): (r: OMap<K, V>)
      ensures r.m == m[k := v]
      ensures r.keys == if k in m then keys else keys + [k]
    {
      if k in m then OMap(keys, m[k := v]) else OMap(keys + [k], m[k := v])
    }

    /** Assignment keeps the keys distinct and in step with the entries. */
    lemma PutValid(k: K, v: V)
      ensures Valid() ==> Put(k, v).Valid()
    {
    }

    /** Validity by position: every listed key has an entry, and no key is listed twice. */
    lemma ValidAt()
      requires Valid()
      ensures forall i :: 0 <= i < |keys| ==> keys[i] in m
      ensures forall i, j :: 0 <= i < j < |keys| ==> keys[i] != keys[j]
    {
    }
  }

  function EmptyOMap<K(==,!new), V>(): (r: OMap<K, V>)
    ensures r.Valid() && r.keys == [] && r.m == map[]
  {
    OMap([], map[])
  }
}
