/**
  The values that Python's JSON decoder hands to the bot, together with the
  parts of Python's data model the bot applies to them: `key in d`, `d[key]`,
  `d.get(key, default)`, `type(v).__name__`, `str(v)` and `repr(v)`.
*/
module Json {

  /** A decoded JSON document: `null`, booleans, integers, strings, lists and
      dicts, the dict keeping its members in document order. */
  datatype Value =
    | Null
    | Bool(b: bool)
    | Int(i: int)
    | String(s: string)
    | Array(items: seq<Value>)
    | Object(members: seq<(string, Value)>)

  /** `key in d` for a dict `d`. */
  predicate HasKey(members: seq<(string, Value)>, key: string)
  {
    exists i | 0 <= i < |members| :: members[i].0 == key
  }

  /** `d[key]`: the value of the last member named `key` (the decoder lets a
      repeated key overwrite the earlier ones). */
  function Lookup(members: seq<(string, Value)>, key: string): (v: Value)
    requires HasKey(members, key)
    ensures exists i | 0 <= i < |members| :: members[i] == (key, v) &&
              forall j | i < j < |members| :: members[j].0 != key
  {
    var n := |members| - 1;
    if members[n].0 == key then
      members[n].1
    else
      assert HasKey(members[..n], key) by {
        var i :| 0 <= i < |members| && members[i].0 == key;
        assert members[..n][i].0 == key;
      }
      var v := Lookup(members[..n], key);
      var i :| 0 <= i < n && members[..n][i] == (key, v) &&
               forall j | i < j < n :: members[..n][j].0 != key;
      assert members[i] == (key, v);
      v
  }

  /** `d.get(key, default)`. */
  function GetOr(members: seq<(string, Value)>, key: string, default: Value): Value
  {
    if HasKey(members, key) then Lookup(members, key) else default
  }

  /** `type(v).__name__`. */
  function TypeName(v: Value): string
  {
    match v
    case Null => "NoneType"
    case Bool(_) => "bool"
    case Int(_) => "int"
    case String(_) => "str"
    case Array(_) => "list"
    case Object(_) => "dict"
  }

  /** `value in d` for a dict: a list or a dict cannot be hashed, so the test raises. */
  predicate Hashable(v: Value)
  {
    !v.Array? && !v.Object?
  }

  /** The decimal digits of `n`, as `str(n)` writes them. */
  function NatToString(n: nat): (r: string)
    ensures |r| > 0
    ensures forall k | 0 <= k < |r| :: '0' <= r[k] <= '9'
  {
    var d := ['0', '1', '2', '3', '4', '5', '6', '7', '8', '9'];
    if n < 10 then [d[n]] else NatToString(n / 10) + [d[n % 10]]
  }

  /** `str(i)` for an integer. */
  function IntToString(i: int): string
  {
    if i < 0 then "-" + NatToString(-i) else NatToString(i)
  }

  /** The parts joined with `sep` between neighbours: `sep.join(parts)`. */
  function Join(parts: seq<string>, sep: string): string
  {
    if |parts| == 0 then ""
    else if |parts| == 1 then parts[0]
    else parts[0] + sep + Join(parts[1..], sep)
  }

  /** `repr(v)`: strings in single quotes, everything else as `str(v)`. */
  function Repr(v: Value): string
    decreases v, 1
  {
    if v.String? then "'" + v.s + "'" else Render(v)
  }

  /** `str(v)`, which an f-string uses for `{v}`. Containers show the `repr`
      of their elements. */
  function Render(v: Value): string
    decreases v, 0
  {
    match v
    case Null => "None"
    case Bool(b) => if b then "True" else "False"
    case Int(i) => IntToString(i)
    case String(s) => s
    case Array(items) =>
      "[" + Join(seq(|items|, k requires 0 <= k < |items| => Repr(items[k])), ", ") + "]"
    case Object(members) =>
      "{" + Join(seq(|members|, k requires 0 <= k < |members| =>
                   "'" + members[k].0 + "': " + Repr(members[k].1)), ", ") + "}"
  }

  /** `t` occurs in `s` starting at position `i`. */
  predicate OccursAt(s: string, t: string, i: nat)
  {
    i + |t| <= |s| && s[i..i + |t|] == t
  }

  /** `t in s` for two strings: `t` occurs in `s` as a substring. */
  predicate Contains(s: string, t: string)
  {
    exists i: nat | i <= |s| :: OccursAt(s, t, i)
  }

  /** A string occurs in any string built around it. */
  lemma ContainsAround(a: string, s: string, b: string, t: string)
    requires Contains(s, t)
    ensures Contains(a + s + b, t)
  {
    var i: nat :| i <= |s| && OccursAt(s, t, i);
    var j := |a| + i;
    assert (a + s + b)[j..j + |t|] == s[i..i + |t|];
    assert OccursAt(a + s + b, t, j);
  }

  /** Every part of a join occurs in the joined string. */
  lemma {:induction false} JoinContains(parts: seq<string>, sep: string, k: nat)
    requires k < |parts|
    ensures Contains(Join(parts, sep), parts[k])
  {
    if |parts| == 1 || k == 0 {
      var t := parts[0];
      assert Contains(t, t) by { assert OccursAt(t, t, 0); }
      if |parts| == 1 {
        assert Join(parts, sep) == "" + t + "";
      } else {
        assert Join(parts, sep) == "" + t + (sep + Join(parts[1..], sep));
      }
      ContainsAround("", t, if |parts| == 1 then "" else sep + Join(parts[1..], sep), t);
    } else {
      JoinContains(parts[1..], sep, k - 1);
      assert Join(parts, sep) == (parts[0] + sep) + Join(parts[1..], sep) + "";
      ContainsAround(parts[0] + sep, Join(parts[1..], sep), "", parts[k]);
    }
  }
}
