/** Go's `url.Values` (a map from a key to the list of its values), the escaping of
    `url.QueryEscape` and the `key=value&...` form that `Values.Encode` produces. */
module UrlValues {

  import opened Common
  import opened Strings
  import Utf8

  /** The characters section 2.3 of RFC 3986 leaves unreserved; `QueryEscape` keeps them. */
  predicate IsUnreserved(c: char)
  {
    'a' <= c <= 'z' || 'A' <= c <= 'Z' || '0' <= c <= '9' || c == '-' || c == '_' || c == '.' || c == '~'
  }

  /** What an escaped text is made of: unreserved characters, `+` for a space and `%`. */
  predicate IsEscapedChar(c: char)
  {
    IsUnreserved(c) || c == '+' || c == '%'
  }

  function UpperHex(d: int): (c: char)
    requires 0 <= d < 16
    ensures IsUnreserved(c)
  {
    if d < 10 then Digit(d) else ('A' as int + (d - 10)) as char
  }

  /** The escaping of a byte sequence in the mode Go uses for a query component: an
      unreserved byte stays, a space becomes `+`, every other byte becomes `%XX` in upper
      case hexadecimal. */
  function EscapeBytes(b: seq<byte>): (r: string)
    ensures forall i :: 0 <= i < |r| ==> IsEscapedChar(r[i])
  {
    if |b| == 0 then
      ""
    else
      var c := b[0] as char;
      var head := if IsUnreserved(c) then [c] else if b[0] == 0x20 then "+" else ['%', UpperHex(b[0] / 16), UpperHex(b[0] % 16)];
      head + EscapeBytes(b[1..])
  }

  lemma {:induction false} EscapeUnreservedBytes(s: string, b: seq<byte>)
    requires |b| == |s|
    requires forall i :: 0 <= i < |s| ==> IsUnreserved(s[i]) && b[i] == s[i] as int
    ensures EscapeBytes(b) == s
  {
    if |b| > 0 {
      EscapeUnreservedBytes(s[1..], b[1..]);
      assert s == [s[0]] + s[1..];
    }
  }

  /** `url.QueryEscape`: the result never holds the separators `&` and `=`, and a text of
      unreserved characters is left as it is. */
  function QueryEscape(s: string): (r: string)
    ensures forall i :: 0 <= i < |r| ==> IsEscapedChar(r[i])
    ensures (forall i :: 0 <= i < |s| ==> IsUnreserved(s[i])) ==> r == s
  {
    var b := Utf8.Encode(s);
    if forall i :: 0 <= i < |s| ==> IsUnreserved(s[i]) then
      assert Utf8.IsAscii(s);
      EscapeUnreservedBytes(s, b);
      EscapeBytes(b)
    else
      EscapeBytes(b)
  }

  /** The first value of `key`, or the empty text when it has none: `Values.Get`. */
  function Get(m: map<string, seq<string>>, key: string): string
  {
    if key in m && |m[key]| > 0 then m[key][0] else ""
  }

  /** The values after `Add(key, value)`: `value` appended to the list of `key`, which is
      created when missing. */
  function Added(m: map<string, seq<string>>, key: string, value: string): (r: map<string, seq<string>>)
    ensures r.Keys == m.Keys + {key}
    ensures r[key] == (if key in m then m[key] else []) + [value]
    ensures forall k :: k in m && k != key ==> r[k] == m[k]
  {
    m[key := (if key in m then m[key] else []) + [value]]
  }

  /** `Get` after `Add`: the key reads as its first value, which is the added one when the
      key had no value; every other key reads as before. */
  lemma GetAdded(m: map<string, seq<string>>, key: string, value: string, other: string)
    ensures Get(Added(m, key, value), key) == if key in m && |m[key]| > 0 then m[key][0] else value
    ensures other != key ==> Get(Added(m, key, value), other) == Get(m, other)
  {
  }

  /** A `url.Values` that is filled in place with `Add`. */
  class Values {
    var entries: map<string, seq<string>>

    constructor ()
      ensures entries == map[]
    {
      entries := map[];
    }

    /** `Values.Add`: appends `value` to the list of `key`. */
    method Add(key: string, value: string)
      modifies this
      ensures entries == Added(old(entries), key, value)
    {
      var previous := if key in entries then entries[key] else [];
      entries := entries[key := previous + [value]];
    }
  }

  // ---- Sorting the keys, as `Values.Encode` does before writing them out ----

  predicate StrictlyIncreasing(s: seq<string>)
  {
    forall i, j :: 0 <= i < j < |s| ==> Less(s[i], s[j])
  }

  function Elements(s: seq<string>): set<string>
  {
    set i | 0 <= i < |s| :: s[i]
  }

  lemma ElementsCons(k: string, rest: seq<string>)
    ensures Elements([k] + rest) == {k} + Elements(rest)
  {
    var s := [k] + rest;
    forall y | y in Elements(s)
      ensures y in {k} + Elements(rest)
    {
      var i :| 0 <= i < |s| && s[i] == y;
      if i > 0 {
        assert rest[i - 1] == y;
      }
    }
    forall y | y in Elements(rest)
      ensures y in Elements(s)
    {
      var i :| 0 <= i < |rest| && rest[i] == y;
      assert s[i + 1] == y;
    }
    assert s[0] == k;
  }

  lemma IncreasingCons(k: string, rest: seq<string>)
    requires StrictlyIncreasing(rest)
    requires forall y :: y in Elements(rest) ==> Less(k, y)
    ensures StrictlyIncreasing([k] + rest)
  {
    var s := [k] + rest;
    forall i, j | 0 <= i < j < |s|
      ensures Less(s[i], s[j])
    {
      if i == 0 {
        assert s[j] == rest[j - 1] && rest[j - 1] in Elements(rest);
      } else {
        assert s[i] == rest[i - 1] && s[j] == rest[j - 1];
      }
    }
  }

  /** Each key before the next one: the whole list is increasing. */
  lemma {:induction false} IncreasingByAdjacent(s: seq<string>)
    requires forall i :: 0 <= i < |s| - 1 ==> Less(s[i], s[i + 1])
    ensures StrictlyIncreasing(s)
    decreases |s|
  {
    if |s| > 1 {
      var rest := s[1..];
      assert forall i :: 0 <= i < |rest| - 1 ==> Less(rest[i], rest[i + 1]) by {
        forall i | 0 <= i < |rest| - 1
          ensures Less(rest[i], rest[i + 1])
        {
          assert rest[i] == s[i + 1] && rest[i + 1] == s[i + 2];
        }
      }
      IncreasingByAdjacent(rest);
      forall y | y in Elements(rest)
        ensures Less(s[0], y)
      {
        var j :| 0 <= j < |rest| && rest[j] == y;
        if j > 0 {
          assert Less(rest[0], rest[j]);
          LessTransitive(s[0], rest[0], y);
        }
      }
      IncreasingCons(s[0], rest);
      assert s == [s[0]] + rest;
    }
  }

  predicate IsLeast(k: string, keys: set<string>)
  {
    k in keys && forall y :: y in keys && y != k ==> Less(k, y)
  }

  lemma {:induction false} LeastExists(keys: set<string>)
    requires keys != {}
    ensures exists k :: IsLeast(k, keys)
    decreases keys
  {
    var x :| x in keys;
    if keys == {x} {
      assert IsLeast(x, keys);
    } else {
      LeastExists(keys - {x});
      var k :| IsLeast(k, keys - {x});
      LessTotal(x, k);
      if Less(x, k) {
        forall y | y in keys && y != x
          ensures Less(x, y)
        {
          if y != k {
            LessTransitive(x, k, y);
          }
        }
        assert IsLeast(x, keys);
      } else {
        assert IsLeast(k, keys);
      }
    }
  }

  lemma LeastUnique(keys: set<string>)
    ensures forall k1, k2 :: IsLeast(k1, keys) && IsLeast(k2, keys) ==> k1 == k2
  {
    forall k1, k2 | IsLeast(k1, keys) && IsLeast(k2, keys)
      ensures k1 == k2
    {
      if k1 != k2 {
        LessTransitive(k1, k2, k1);
        LessIrreflexive(k1);
      }
    }
  }

  /** The keys in increasing order, each once. */
  function SortedKeys(keys: set<string>): (r: seq<string>)
    ensures |r| == |keys| && Elements(r) == keys
    ensures StrictlyIncreasing(r)
    ensures |r| > 0 ==> IsLeast(r[0], keys) && r[1..] == SortedKeys(keys - {r[0]})
    decreases keys
  {
    if keys == {} then
      []
    else
      LeastExists(keys);
      LeastUnique(keys);
      var k :| IsLeast(k, keys);
      var rest := SortedKeys(keys - {k});
      ElementsCons(k, rest);
      IncreasingCons(k, rest);
      assert ([k] + rest)[1..] == rest;
      [k] + rest
  }

  /** The head of an increasing list is its least key, and the tail lists the others. */
  lemma IncreasingTail(xs: seq<string>)
    requires |xs| > 0 && StrictlyIncreasing(xs)
    ensures IsLeast(xs[0], Elements(xs))
    ensures StrictlyIncreasing(xs[1..]) && Elements(xs[1..]) == Elements(xs) - {xs[0]}
  {
    var keys := Elements(xs);
    assert xs[0] in keys;
    forall y | y in Elements(xs[1..])
      ensures y in keys - {xs[0]}
    {
      var j :| 0 <= j < |xs[1..]| && xs[1..][j] == y;
      LessIrreflexive(xs[0]);
      assert Less(xs[0], xs[j + 1]);
    }
    forall y | y in keys - {xs[0]}
      ensures y in Elements(xs[1..])
    {
      var j :| 0 <= j < |xs| && xs[j] == y;
      assert xs[1..][j - 1] == y;
    }
  }

  /** Only one sequence lists a set of keys in increasing order. */
  lemma {:induction false} SortedKeysUnique(xs: seq<string>)
    requires StrictlyIncreasing(xs)
    ensures SortedKeys(Elements(xs)) == xs
    decreases |xs|
  {
    if |xs| > 0 {
      var keys := Elements(xs);
      IncreasingTail(xs);
      LeastUnique(keys);
      SortedKeysUnique(xs[1..]);
      var r := SortedKeys(keys);
      assert r[0] == xs[0];
      HeadTail(r, xs);
    }
  }

  lemma HeadTail(r: seq<string>, xs: seq<string>)
    requires |r| > 0 && |xs| > 0 && r[0] == xs[0] && r[1..] == xs[1..]
    ensures r == xs
  {
    assert r == [r[0]] + r[1..];
    assert xs == [xs[0]] + xs[1..];
  }

  // ---- Writing the query text ----

  /** One `key=value` field, both sides escaped. */
  function Field(key: string, value: string): (f: string)
    ensures forall i :: 0 <= i < |f| ==> IsEscapedChar(f[i]) || f[i] == '='
  {
    QueryEscape(key) + "=" + QueryEscape(value)
  }

  /** The fields of one key, one per value, in the order they were added. */
  function KeyFields(key: string, values: seq<string>): (r: seq<string>)
    ensures |r| == |values|
  {
    if |values| == 0 then [] else [Field(key, values[0])] + KeyFields(key, values[1..])
  }

  /** The fields of the listed keys, key after key. */
  function Fields(m: map<string, seq<string>>, keys: seq<string>): seq<string>
  {
    if |keys| == 0 then [] else KeyFields(keys[0], if keys[0] in m then m[keys[0]] else []) + Fields(m, keys[1..])
  }

  /** A key with a single value contributes one field. */
  lemma FieldsCons(m: map<string, seq<string>>, k: string, v: string, rest: seq<string>)
    requires k in m && m[k] == [v]
    ensures Fields(m, [k] + rest) == [Field(k, v)] + Fields(m, rest)
  {
    assert ([k] + rest)[1..] == rest;
  }

  /** The fields separated by `&`. */
  function Join(parts: seq<string>): string
  {
    if |parts| == 0 then "" else if |parts| == 1 then parts[0] else parts[0] + "&" + Join(parts[1..])
  }

  /** Joining a field in front of at least one more. */
  lemma JoinCons(part: string, rest: seq<string>)
    requires |rest| > 0
    ensures Join([part] + rest) == part + "&" + Join(rest)
  {
    assert ([part] + rest)[1..] == rest;
  }

  /** `Values.Encode`: the fields of every key, keys in increasing order. */
  function Encode(m: map<string, seq<string>>): string
  {
    var keys := SortedKeys(m.Keys);
    Join(Fields(m, keys))
  }

  predicate IsQueryChar(c: char)
  {
    IsEscapedChar(c) || c == '=' || c == '&'
  }

  lemma {:induction false} KeyFieldsChars(key: string, values: seq<string>)
    ensures forall j, i :: 0 <= j < |KeyFields(key, values)| && 0 <= i < |KeyFields(key, values)[j]| ==>
      IsQueryChar(KeyFields(key, values)[j][i])
    decreases |values|
  {
    if |values| > 0 {
      KeyFieldsChars(key, values[1..]);
      var r := KeyFields(key, values);
      forall j, i | 0 <= j < |r| && 0 <= i < |r[j]|
        ensures IsQueryChar(r[j][i])
      {
        if j > 0 {
          assert r[j] == KeyFields(key, values[1..])[j - 1];
        }
      }
    }
  }

  lemma {:induction false} FieldsChars(m: map<string, seq<string>>, keys: seq<string>)
    ensures forall j, i :: 0 <= j < |Fields(m, keys)| && 0 <= i < |Fields(m, keys)[j]| ==> IsQueryChar(Fields(m, keys)[j][i])
    decreases |keys|
  {
    if |keys| > 0 {
      var head := KeyFields(keys[0], if keys[0] in m then m[keys[0]] else []);
      KeyFieldsChars(keys[0], if keys[0] in m then m[keys[0]] else []);
      FieldsChars(m, keys[1..]);
      var r := Fields(m, keys);
      forall j, i | 0 <= j < |r| && 0 <= i < |r[j]|
        ensures IsQueryChar(r[j][i])
      {
        if j >= |head| {
          assert r[j] == Fields(m, keys[1..])[j - |head|];
        } else {
          assert r[j] == head[j];
        }
      }
    }
  }

  lemma {:induction false} JoinChars(parts: seq<string>)
    requires forall j, i :: 0 <= j < |parts| && 0 <= i < |parts[j]| ==> IsQueryChar(parts[j][i])
    ensures forall i :: 0 <= i < |Join(parts)| ==> IsQueryChar(Join(parts)[i])
    decreases |parts|
  {
    if |parts| > 1 {
      var rest := parts[1..];
      assert forall j, i :: 0 <= j < |rest| && 0 <= i < |rest[j]| ==> IsQueryChar(rest[j][i]) by {
        forall j, i | 0 <= j < |rest| && 0 <= i < |rest[j]|
          ensures IsQueryChar(rest[j][i])
        {
          assert rest[j] == parts[j + 1];
        }
      }
      JoinChars(rest);
      var t := Join(parts);
      forall i | 0 <= i < |t|
        ensures IsQueryChar(t[i])
      {
        if i < |parts[0]| {
          assert t[i] == parts[0][i];
        } else if i > |parts[0]| {
          assert t[i] == Join(rest)[i - |parts[0]| - 1];
        }
      }
    } else if |parts| == 1 {
      assert Join(parts) == parts[0];
      forall i | 0 <= i < |Join(parts)|
        ensures IsQueryChar(Join(parts)[i])
      {
        assert Join(parts)[i] == parts[0][i];
      }
    }
  }

  /** An encoded query holds only escaped characters and the separators `=` and `&`, so a
      value can never be mistaken for a separator. */
  lemma EncodeChars(m: map<string, seq<string>>)
    ensures forall i :: 0 <= i < |Encode(m)| ==> IsQueryChar(Encode(m)[i])
  {
    FieldsChars(m, SortedKeys(m.Keys));
    JoinChars(Fields(m, SortedKeys(m.Keys)));
  }

  /** When the keys of `m` are exactly the increasing list `keys`, that is the order in
      which `Encode` writes them. */
  lemma EncodeInOrder(m: map<string, seq<string>>, keys: seq<string>)
    requires StrictlyIncreasing(keys) && m.Keys == Elements(keys)
    ensures Encode(m) == Join(Fields(m, keys))
  {
    SortedKeysUnique(keys);
  }
}
