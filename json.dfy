/** Values as Python's `json` module loads them, with the dictionary operations
    (`in`, `get`, `items()`) and the `int()` conversion the pipeline applies to them. */
module JsonValues {
  import opened Optional
  import opened Strings

  /** An object keeps its members in document order, repeated keys included;
      `Lookup` and `Items` give them the meaning of the `dict` that `json` builds. */
  datatype Json =
    | Null
    | Bool(b: bool)
    | Int(i: int)
    | Float(r: real)
    | NaN
    | Infinity(negative: bool)
    | Str(s: string)
    | Array(elems: seq<Json>)
    | Object(members: seq<(string, Json)>)

  /** `d[key]` of the dictionary built from `members`: the value of the last member
      with that key (a later duplicate overwrites an earlier one); `None` if absent. */
  function Lookup(members: seq<(string, Json)>, key: string): (r: Option<Json>)
    ensures r.None? <==> forall i | 0 <= i < |members| :: members[i].0 != key
    ensures r.Some? ==> exists i | 0 <= i < |members| ::
      members[i] == (key, r.value) && forall j | i < j < |members| :: members[j].0 != key
  {
    if members == [] then None
    else if members[|members| - 1].0 == key then Some(members[|members| - 1].1)
    else Lookup(members[..|members| - 1], key)
  }

  /** Python's `d.get(key, default)`. */
  function Get(members: seq<(string, Json)>, key: string, default: Json): Json {
    Lookup(members, key).GetOr(default)
  }

  lemma KeysOfAppend<V>(a: seq<(string, V)>, b: seq<(string, V)>)
    ensures KeysOf(a + b) == KeysOf(a) + KeysOf(b)
  {
  }

  /** A key no member carries is absent. */
  lemma LookupAbsent(members: seq<(string, Json)>, key: string)
    requires key !in KeysOf(members)
    ensures Lookup(members, key).None?
  {
    assert forall i | 0 <= i < |members| :: members[i].0 == KeysOf(members)[i];
  }

  /** A lookup in two member lists read one after the other: the later list wins. */
  lemma {:induction false} LookupAppend(a: seq<(string, Json)>, b: seq<(string, Json)>, key: string)
    ensures Lookup(a + b, key) == if Lookup(b, key).Some? then Lookup(b, key) else Lookup(a, key)
    decreases |b|
  {
    if b != [] {
      assert (a + b)[..|a + b| - 1] == a + b[..|b| - 1];
      LookupAppend(a, b[..|b| - 1], key);
    } else {
      assert a + b == a;
    }
  }

  /** `d[key] = value` for a key already present: every member with that key takes the value. */
  function Assign(members: seq<(string, Json)>, key: string, value: Json): (r: seq<(string, Json)>)
    ensures |r| == |members| && KeysOf(r) == KeysOf(members)
  {
    seq(|members|, i requires 0 <= i < |members| => if members[i].0 == key then (key, value) else members[i])
  }

  /** After the assignment the key reads the new value, if it was there, and every other
      key reads what it read before. */
  lemma {:induction false} LookupAssign(members: seq<(string, Json)>, key: string, value: Json, k: string)
    ensures Lookup(Assign(members, key, value), k) ==
      if k == key && Lookup(members, key).Some? then Some(value) else Lookup(members, k)
  {
    if members != [] {
      var init := members[..|members| - 1];
      assert Assign(members, key, value)[..|members| - 1] == Assign(init, key, value);
      LookupAssign(init, key, value, k);
    }
  }

  function KeysOf<V>(members: seq<(string, V)>): seq<string> {
    seq(|members|, i requires 0 <= i < |members| => members[i].0)
  }

  /** Python's `d.items()`: each key once, at the position of its first occurrence,
      with the value of its last occurrence. */
  function Items(members: seq<(string, Json)>): (r: seq<(string, Json)>)
    ensures forall i, j | 0 <= i < j < |r| :: r[i].0 != r[j].0
    ensures forall k :: (exists i | 0 <= i < |r| :: r[i].0 == k) <==> Lookup(members, k).Some?
    ensures forall i | 0 <= i < |r| :: Lookup(members, r[i].0) == Some(r[i].1)
  {
    var keys := Unique(KeysOf(members));
    var r := seq(|keys|, i requires 0 <= i < |keys| => (keys[i], Get(members, keys[i], Null)));
    var ks := KeysOf(members);
    forall k ensures k in keys <==> exists i | 0 <= i < |members| :: members[i].0 == k {
      if k in ks {
        var i :| 0 <= i < |ks| && ks[i] == k;
        assert members[i].0 == k;
      }
      if exists i | 0 <= i < |members| :: members[i].0 == k {
        var i :| 0 <= i < |members| && members[i].0 == k;
        assert ks[i] == k;
      }
    }
    forall k ensures (exists i | 0 <= i < |r| :: r[i].0 == k) <==> Lookup(members, k).Some? {
      if k in keys {
        var i :| 0 <= i < |keys| && keys[i] == k;
        assert r[i].0 == k;
      }
      if Lookup(members, k).None? {
        assert k !in keys;
      }
    }
    r
  }

  predicate IsDigit(c: char) {
    '0' <= c <= '9'
  }

  predicate IsDigits(s: string) {
    s != [] && forall i | 0 <= i < |s| :: IsDigit(s[i])
  }

  /** The number a run of decimal digits denotes. */
  function DigitsValue(s: string): nat
    requires forall i | 0 <= i < |s| :: IsDigit(s[i])
  {
    if s == [] then 0
    else
      assert IsDigit(s[|s| - 1]);
      10 * DigitsValue(s[..|s| - 1]) + (s[|s| - 1] as int - '0' as int)
  }

  /** Python's `int(text)` for text in base 10: optional sign, ASCII digits,
      surrounding white space ignored; `None` where Python raises `ValueError`. */
  function ParseInt(text: string): Option<int> {
    ParseSigned(Strip(text))
  }

  function ParseSigned(t: string): Option<int> {
    if t != [] && (t[0] == '+' || t[0] == '-') then
      if IsDigits(t[1..]) then
        Some(if t[0] == '-' then -(DigitsValue(t[1..]) as int) else DigitsValue(t[1..]))
      else None
    else if IsDigits(t) then Some(DigitsValue(t))
    else None
  }

  /** Python's `str(n)` for a natural number. */
  function ShowNat(n: nat): (r: string)
    ensures IsDigits(r)
  {
    var d := ['0' + (n % 10) as char];
    if n < 10 then d else ShowNat(n / 10) + d
  }

  /** Python's `str(i)` for an integer. */
  function ShowInt(i: int): string {
    if i < 0 then "-" + ShowNat(-i) else ShowNat(i)
  }

  lemma {:induction false} ShowNatValue(n: nat)
    ensures DigitsValue(ShowNat(n)) == n
  {
    if n >= 10 {
      ShowNatValue(n / 10);
      var s := ShowNat(n);
      assert s[..|s| - 1] == ShowNat(n / 10);
    }
  }

  lemma DigitNotSpace(s: string)
    requires IsDigits(s)
    ensures !IsSpace(s[0]) && !IsSpace(s[|s| - 1])
  {
    assert IsDigit(s[0]) && IsDigit(s[|s| - 1]);
  }

  lemma ParseSignedDigits(digits: string)
    requires IsDigits(digits)
    ensures ParseSigned(digits) == Some(DigitsValue(digits) as int)
    ensures ParseSigned("-" + digits) == Some(-(DigitsValue(digits) as int))
  {
    assert IsDigit(digits[0]);
    assert ("-" + digits)[1..] == digits;
  }

  lemma StripDigits(digits: string)
    requires IsDigits(digits)
    ensures Strip(digits) == digits
    ensures Strip("-" + digits) == "-" + digits
  {
    DigitNotSpace(digits);
    StripUnpadded(digits);
    var s := "-" + digits;
    assert s[|s| - 1] == digits[|digits| - 1];
    assert !IsSpace(s[0]);
    StripUnpadded(s);
  }

  lemma ParseStripped(t: string)
    requires Strip(t) == t
    ensures ParseInt(t) == ParseSigned(t)
  {
  }

  /** `int()` of a run of digits, with or without a minus sign in front. */
  lemma ParseDigits(digits: string)
    requires IsDigits(digits)
    ensures ParseInt(digits) == Some(DigitsValue(digits) as int)
    ensures ParseInt("-" + digits) == Some(-(DigitsValue(digits) as int))
  {
    StripDigits(digits);
    ParseSignedDigits(digits);
    ParseStripped(digits);
    ParseStripped("-" + digits);
  }

  /** `int(str(i)) == i`. */
  lemma ParseShowInt(i: int)
    ensures ParseInt(ShowInt(i)) == Some(i)
  {
    var n: nat := if i < 0 then -i else i;
    ShowNatValue(n);
    ParseDigits(ShowNat(n));
  }

  /** Python's `int(value)` for a value loaded from JSON: booleans count as 0 and 1,
      finite floats are truncated toward zero, strings are parsed; `None` where Python
      raises, as it does for `NaN` (`ValueError`) and the infinities (`OverflowError`). */
  function ToInt(value: Json): (r: Option<int>)
  {
    match value
    case Bool(b) => Some(if b then 1 else 0)
    case Int(i) => Some(i)
    case Float(x) => Some(if x >= 0.0 then x.Floor else -((-x).Floor))
    case Str(s) => ParseInt(s)
    case _ => None
  }

  /** `int()` of an integer is itself, and of its decimal text too. */
  lemma ToIntOfInt(i: int)
    ensures ToInt(Int(i)) == Some(i)
    ensures ToInt(Str(ShowInt(i))) == Some(i)
  {
    ParseShowInt(i);
  }

  /** `int()` of a float drops the fraction: the result lies within 1 of it, toward zero. */
  lemma ToIntOfFloat(x: real)
    ensures ToInt(Float(x)).Some?
    ensures x >= 0.0 ==> x - 1.0 < ToInt(Float(x)).value as real <= x
    ensures x < 0.0 ==> x <= ToInt(Float(x)).value as real < x + 1.0
  {
  }

  /** Python's `str(value)`: strings as they are, `None`, `True`, `False` and integers
      as Python prints them; floats, lists and dictionaries through `render`, which
      stands for Python's own formatting of those. */
  function PyStr(value: Json, render: Json -> string): string {
    match value
    case Null => "None"
    case Bool(b) => if b then "True" else "False"
    case Int(i) => ShowInt(i)
    case Str(s) => s
    case _ => render(value)
  }
}
