/**
 * Writing and reading the query of a URL. A query is a list of fields
 * `name=value` separated by `&`. Reading takes everything after the first `?`
 * of the URL, cuts it at each `&`, and takes a field's name to be what
 * precedes its first `=` and its raw (still encoded) value what follows it.
 */
module QueryString {
  import opened Wrappers

  /** Cuts `s` at the first `sep`: the part before it, and the part after it if there is one. */
  function SplitFirst(s: string, sep: char): (r: (string, Option<string>))
    ensures sep !in r.0
    ensures r.1.None? ==> r.0 == s
    ensures r.1.Some? ==> s == r.0 + [sep] + r.1.value
    decreases |s|
  {
    if s == [] then
      ("", None)
    else if s[0] == sep then
      ("", Some(s[1..]))
    else
      var (before, after) := SplitFirst(s[1..], sep);
      ([s[0]] + before, after)
  }

  /** The first occurrence of the separator is where the cut falls. */
  lemma {:induction false} SplitFirstAt(a: string, sep: char, b: string)
    requires sep !in a
    ensures SplitFirst(a + [sep] + b, sep) == (a, Some(b))
    decreases |a|
  {
    var s := a + [sep] + b;
    if a == [] {
      assert s[0] == sep && s[1..] == b;
    } else {
      assert s[0] == a[0] != sep;
      assert s[1..] == a[1..] + [sep] + b;
      SplitFirstAt(a[1..], sep, b);
      assert [a[0]] + a[1..] == a;
    }
  }

  /** A string without the separator is not cut. */
  lemma SplitFirstAbsent(s: string, sep: char)
    requires sep !in s
    ensures SplitFirst(s, sep) == (s, None)
  {
  }

  /** The raw value of the first field called `name` in a `&`-separated list, if any. */
  function Lookup(query: string, name: string): (r: Option<string>)
    decreases |query|
  {
    var (field, rest) := SplitFirst(query, '&');
    var (key, value) := SplitFirst(field, '=');
    if key == name then Some(value.GetOr(""))
    else if rest.None? then None
    else Lookup(rest.value, name)
  }

  /** The raw value of the query parameter `name` of `url`, if the URL has a query holding it. */
  function QueryParameter(url: string, name: string): (r: Option<string>)
    ensures r.Some? ==> '?' in url
  {
    var (_, query) := SplitFirst(url, '?');
    if query.None? then None else Lookup(query.value, name)
  }

  /** Reading past a field `key=value&…` that is followed by more fields. */
  lemma LookupField(key: string, value: string, rest: string, name: string)
    requires '&' !in key && '=' !in key && '&' !in value
    ensures Lookup(key + "=" + value + "&" + rest, name)
         == if key == name then Some(value) else Lookup(rest, name)
  {
    var field := key + "=" + value;
    assert '&' !in field by {
      forall i | 0 <= i < |field| ensures field[i] != '&' {
        if i > |key| { assert field[i] == value[i - |key| - 1]; }
      }
    }
    SplitFirstAt(field, '&', rest);
    SplitFirstAt(key, '=', value);
  }

  /** Reading the last field `key=value` of a list. */
  lemma LookupLastField(key: string, value: string, name: string)
    requires '&' !in key && '=' !in key && '&' !in value
    ensures Lookup(key + "=" + value, name) == if key == name then Some(value) else None
  {
    var field := key + "=" + value;
    assert '&' !in field by {
      forall i | 0 <= i < |field| ensures field[i] != '&' {
        if i > |key| { assert field[i] == value[i - |key| - 1]; }
      }
    }
    SplitFirstAbsent(field, '&');
    SplitFirstAt(key, '=', value);
  }

  /** The query a list of (name, value) pairs is written as: `n1=v1&n2=v2&…`. */
  function JoinQuery(fields: seq<(string, string)>): (q: string)
    requires |fields| > 0
    decreases |fields|
  {
    if |fields| == 1 then fields[0].0 + "=" + fields[0].1
    else fields[0].0 + "=" + fields[0].1 + "&" + JoinQuery(fields[1..])
  }

  /** The value of the first pair called `name`, if any. */
  function FirstValue(fields: seq<(string, string)>, name: string): (r: Option<string>)
    ensures r.Some? ==> exists i | 0 <= i < |fields| :: fields[i] == (name, r.value)
    ensures r.None? ==> forall i | 0 <= i < |fields| :: fields[i].0 != name
    decreases |fields|
  {
    if fields == [] then None
    else if fields[0].0 == name then Some(fields[0].1)
    else FirstValue(fields[1..], name)
  }

  /** No name holds `&` or `=`, and no value holds `&`. */
  predicate Delimited(fields: seq<(string, string)>) {
    forall i | 0 <= i < |fields| :: '&' !in fields[i].0 && '=' !in fields[i].0 && '&' !in fields[i].1
  }

  /** Reading a written query gives, for each name, the value of its first field. */
  lemma {:induction false} LookupJoinQuery(fields: seq<(string, string)>, name: string)
    requires |fields| > 0 && Delimited(fields)
    ensures Lookup(JoinQuery(fields), name) == FirstValue(fields, name)
    decreases |fields|
  {
    if |fields| == 1 {
      LookupLastField(fields[0].0, fields[0].1, name);
    } else {
      LookupField(fields[0].0, fields[0].1, JoinQuery(fields[1..]), name);
      if fields[0].0 != name {
        assert Delimited(fields[1..]) by {
          forall i | 0 <= i < |fields[1..]| ensures '&' !in fields[1..][i].0 && '=' !in fields[1..][i].0 && '&' !in fields[1..][i].1 {
            assert fields[1..][i] == fields[i + 1];
          }
        }
        LookupJoinQuery(fields[1..], name);
      }
    }
  }

  predicate EndsWith(s: string, suffix: string) {
    |suffix| <= |s| && s[|s| - |suffix|..] == suffix
  }

  /** A written query ends with its last field. */
  lemma {:induction false} JoinQueryEndsWithLast(fields: seq<(string, string)>)
    requires |fields| > 0
    ensures EndsWith(JoinQuery(fields), fields[|fields| - 1].0 + "=" + fields[|fields| - 1].1)
    decreases |fields|
  {
    if |fields| > 1 {
      JoinQueryEndsWithLast(fields[1..]);
      assert fields[1..][|fields[1..]| - 1] == fields[|fields| - 1];
      var head := fields[0].0 + "=" + fields[0].1 + "&";
      var tail := JoinQuery(fields[1..]);
      assert JoinQuery(fields) == head + tail;
      var last := fields[|fields| - 1].0 + "=" + fields[|fields| - 1].1;
      assert (head + tail)[|head + tail| - |last|..] == tail[|tail| - |last|..];
    }
  }

  /** Writing a list with more than one field: the first field, `&`, then the rest. */
  lemma JoinFirstField(name: string, value: string, rest: seq<(string, string)>)
    requires |rest| > 0
    ensures JoinQuery([(name, value)] + rest) == name + "=" + value + "&" + JoinQuery(rest)
  {
    assert ([(name, value)] + rest)[1..] == rest;
  }

  lemma AppendField(acc: string, name: string, value: string)
    ensures acc + name + "=" + value + "&" == acc + (name + "=" + value + "&")
  {
  }

  lemma AppendLastField(acc: string, name: string, value: string)
    ensures acc + name + "=" + value == acc + (name + "=" + value)
  {
  }

  lemma Reassociate(p0: string, p1: string, p2: string, p3: string, p4: string, p5: string)
    ensures p0 + (p1 + (p2 + (p3 + (p4 + p5)))) == p0 + p1 + p2 + p3 + p4 + p5
  {
  }

  /** A six-field query written out: `n0=v0&n1=v1&…&n5=v5`. */
  lemma JoinSixFields(n0: string, v0: string, n1: string, v1: string, n2: string, v2: string,
                      n3: string, v3: string, n4: string, v4: string, n5: string, v5: string)
    ensures JoinQuery([(n0, v0), (n1, v1), (n2, v2), (n3, v3), (n4, v4), (n5, v5)])
      == n0 + "=" + v0 + "&" + n1 + "=" + v1 + "&" + n2 + "=" + v2 + "&"
         + n3 + "=" + v3 + "&" + n4 + "=" + v4 + "&" + n5 + "=" + v5
  {
    var f := [(n0, v0), (n1, v1), (n2, v2), (n3, v3), (n4, v4), (n5, v5)];
    var p0, p1, p2, p3, p4, p5 := n0 + "=" + v0 + "&", n1 + "=" + v1 + "&", n2 + "=" + v2 + "&",
      n3 + "=" + v3 + "&", n4 + "=" + v4 + "&", n5 + "=" + v5;
    assert f[5..] == [(n5, v5)];
    var j5 := JoinQuery(f[5..]);
    assert j5 == p5;
    JoinFirstField(n4, v4, f[5..]);
    assert f[4..] == [(n4, v4)] + f[5..];
    var j4 := JoinQuery(f[4..]);
    assert j4 == p4 + j5;
    JoinFirstField(n3, v3, f[4..]);
    assert f[3..] == [(n3, v3)] + f[4..];
    var j3 := JoinQuery(f[3..]);
    assert j3 == p3 + j4;
    JoinFirstField(n2, v2, f[3..]);
    assert f[2..] == [(n2, v2)] + f[3..];
    var j2 := JoinQuery(f[2..]);
    assert j2 == p2 + j3;
    JoinFirstField(n1, v1, f[2..]);
    assert f[1..] == [(n1, v1)] + f[2..];
    var j1 := JoinQuery(f[1..]);
    assert j1 == p1 + j2;
    JoinFirstField(n0, v0, f[1..]);
    assert f == [(n0, v0)] + f[1..];
    assert JoinQuery(f) == p0 + j1;
    Reassociate(p0, p1, p2, p3, p4, p5);
    AppendField(p0, n1, v1);
    AppendField(p0 + p1, n2, v2);
    AppendField(p0 + p1 + p2, n3, v3);
    AppendField(p0 + p1 + p2 + p3, n4, v4);
    AppendLastField(p0 + p1 + p2 + p3 + p4, n5, v5);
  }
}
