/** pywhids/event.py: event documents addressed by slash paths, and the parser
    of the Sysmon `Hashes` field. */
module Events {
  import opened Wrappers
  import opened Text

  /** A decoded JSON value (numbers are integers). */
  datatype Value =
    | Null
    | Bool(b: bool)
    | Num(n: int)
    | Str(s: string)
    | List(items: seq<Value>)
    | Dict(fields: map<string, Value>)

  /** An event: the decoded JSON object it was built from. */
  datatype Event = Event(data: map<string, Value>)

  /** `Event._get`: descend `data` along `path`; a missing key, or an
      intermediate value that is not an object, gives no value. */
  function Lookup(data: map<string, Value>, path: seq<string>): Option<Value>
    decreases |path|
  {
    if |path| == 0 then None
    else if |path| == 1 then (if path[0] in data then Some(data[path[0]]) else None)
    else if path[0] in data && data[path[0]].Dict? then Lookup(data[path[0]].fields, path[1..])
    else None
  }

  /** `Event.get`: leading slashes are ignored, then the path is split at `/`. */
  function Get(e: Event, path: string): Option<Value>
  {
    Lookup(e.data, Split(LStrip(path, '/'), '/'))
  }

  const ChannelPath := "/Event/System/Channel"

  /** The segments of `ChannelPath`. */
  const ChannelSegments: seq<string> := ["Event", "System", "Channel"]

  /** `Event.channel`: the value at `/Event/System/Channel` (see `ChannelIsGet`). */
  function Channel(e: Event): Option<Value>
  {
    Lookup(e.data, ChannelSegments)
  }

  /** A one-segment lookup reads the key, if present. */
  lemma LookupSingle(data: map<string, Value>, key: string)
    ensures key in data ==> Lookup(data, [key]) == Some(data[key])
    ensures key !in data ==> Lookup(data, [key]) == None
  {
  }

  /** A longer lookup needs the head key to hold an object, and continues in it. */
  lemma LookupDescend(data: map<string, Value>, path: seq<string>)
    requires |path| >= 2
    ensures path[0] !in data ==> Lookup(data, path) == None
    ensures path[0] in data && !data[path[0]].Dict? ==> Lookup(data, path) == None
    ensures path[0] in data && data[path[0]].Dict? ==>
      Lookup(data, path) == Lookup(data[path[0]].fields, path[1..])
  {
  }

  /** Looking up `p + q` is looking up `p`, then `q` inside the object found there. */
  lemma {:induction false} LookupConcat(data: map<string, Value>, p: seq<string>, q: seq<string>)
    requires |p| >= 1 && |q| >= 1
    decreases |p|
    ensures Lookup(data, p + q) ==
      match Lookup(data, p)
      case Some(Dict(m)) => Lookup(m, q)
      case _ => None
  {
    if |p| > 1 {
      assert (p + q)[0] == p[0] && (p + q)[1..] == p[1..] + q;
      if p[0] in data && data[p[0]].Dict? {
        LookupConcat(data[p[0]].fields, p[1..], q);
      }
    } else {
      assert (p + q)[0] == p[0] && (p + q)[1..] == q;
    }
  }

  /** A leading slash does not change what a path designates. */
  lemma GetLeadingSlash(e: Event, path: string)
    ensures Get(e, "/" + path) == Get(e, path)
  {
    assert ("/" + path)[1..] == path;
  }

  /** A path written as `/` followed by slash-free segments looks those segments up. */
  lemma GetSegments(e: Event, segments: seq<string>)
    requires |segments| >= 1 && segments[0] != []
    requires forall i :: 0 <= i < |segments| ==> '/' !in segments[i]
    ensures Get(e, "/" + Join(segments, '/')) == Lookup(e.data, segments)
  {
    var joined := Join(segments, '/');
    GetLeadingSlash(e, joined);
    JoinStart(segments, '/');
    assert joined[0] == segments[0][0];
    assert segments[0][0] != '/';
    assert LStrip(joined, '/') == joined;
    JoinSplit(segments, '/');
  }

  /** `channel` reads `Event`, then `System`, then `Channel`. */
  lemma ChannelIsGet(e: Event)
    ensures Channel(e) == Get(e, ChannelPath)
  {
    ChannelPathSegments();
    GetSegments(e, ChannelSegments);
  }

  /** `ChannelPath` is `/` followed by the slash-free `ChannelSegments` joined by `/`. */
  lemma ChannelPathSegments()
    ensures |ChannelSegments| >= 1 && ChannelSegments[0] != []
    ensures forall i :: 0 <= i < |ChannelSegments| ==> '/' !in ChannelSegments[i]
    ensures "/" + Join(ChannelSegments, '/') == ChannelPath
  {
  }

  /** The dict `parse_sysmon_hashes` builds, as its entries in insertion order. */
  type Hashes = seq<(string, string)>

  function KeysOf(d: Hashes): set<string>
  {
    set i | 0 <= i < |d| :: d[i].0
  }

  predicate DistinctKeys(d: Hashes)
  {
    forall i, j :: 0 <= i < j < |d| ==> d[i].0 != d[j].0
  }

  predicate AllLower(d: Hashes)
  {
    forall i :: 0 <= i < |d| ==> IsLower(d[i].0) && IsLower(d[i].1)
  }

  /** `d.get(k)`. */
  function Find(d: Hashes, k: string): Option<string>
  {
    if d == [] then None else if d[0].0 == k then Some(d[0].1) else Find(d[1..], k)
  }

  /** `d.values()`, in insertion order. */
  function Values(d: Hashes): (vs: seq<string>)
    ensures |vs| == |d| && forall i :: 0 <= i < |d| ==> vs[i] == d[i].1
  {
    seq(|d|, i requires 0 <= i < |d| => d[i].1)
  }

  /** `d[k] = v`: a key already present keeps its place and takes the new value;
      a new key goes at the end. */
  function Assign(d: Hashes, k: string, v: string): (r: Hashes)
    ensures KeysOf(r) == KeysOf(d) + {k}
    ensures Find(r, k) == Some(v)
    ensures forall other :: other != k ==> Find(r, other) == Find(d, other)
    ensures forall i :: 0 <= i < |r| ==> r[i] == (k, v) || r[i] in d
    ensures k !in KeysOf(d) ==> r == d + [(k, v)]
  {
    if d == [] then
      KeysOfCons((k, v), []);
      [(k, v)]
    else if d[0].0 == k then
      KeysOfCons(d[0], d[1..]);
      KeysOfCons((k, v), d[1..]);
      [(k, v)] + d[1..]
    else
      var rest := Assign(d[1..], k, v);
      KeysOfCons(d[0], d[1..]);
      KeysOfCons(d[0], rest);
      [d[0]] + rest
  }

  /** Assignment keeps the keys distinct. */
  lemma {:induction false} AssignDistinct(d: Hashes, k: string, v: string)
    ensures DistinctKeys(d) ==> DistinctKeys(Assign(d, k, v))
  {
    if DistinctKeys(d) && d != [] {
      DistinctUncons(d);
      if d[0].0 == k {
        DistinctCons((k, v), d[1..]);
      } else {
        var rest := Assign(d[1..], k, v);
        AssignDistinct(d[1..], k, v);
        DistinctCons(d[0], rest);
      }
    }
  }

  /** Re-assigning a key already present keeps every entry in its place: only
      that key's value changes, so the dict's order is unchanged. */
  lemma {:induction false} AssignInPlace(d: Hashes, k: string, v: string)
    requires DistinctKeys(d) && k in KeysOf(d)
    ensures var r := Assign(d, k, v);
      |r| == |d| && forall i :: 0 <= i < |d| ==> r[i] == (if d[i].0 == k then (k, v) else d[i])
  {
    var r := Assign(d, k, v);
    if d[0].0 == k {
      assert r == [(k, v)] + d[1..];
      forall i | 0 < i < |d| ensures r[i] == d[i] && d[i].0 != k {
        assert r[i] == d[1..][i - 1];
      }
    } else {
      DistinctUncons(d);
      KeysOfCons(d[0], d[1..]);
      var rest := Assign(d[1..], k, v);
      AssignInPlace(d[1..], k, v);
      assert r == [d[0]] + rest;
      forall i | 0 < i < |d| ensures r[i] == (if d[i].0 == k then (k, v) else d[i]) {
        assert r[i] == rest[i - 1] && d[i] == d[1..][i - 1];
      }
    }
  }

  /** The first key of a dict with distinct keys occurs nowhere after it. */
  lemma DistinctUncons(d: Hashes)
    requires DistinctKeys(d) && d != []
    ensures d[0].0 !in KeysOf(d[1..]) && DistinctKeys(d[1..])
  {
    forall i | 0 <= i < |d[1..]| ensures d[1..][i].0 != d[0].0 {
      assert d[1..][i] == d[i + 1];
    }
  }

  /** Putting a new key in front of distinct keys keeps them distinct. */
  lemma DistinctCons(x: (string, string), rest: Hashes)
    requires x.0 !in KeysOf(rest) && DistinctKeys(rest)
    ensures DistinctKeys([x] + rest)
  {
    var r := [x] + rest;
    forall i, j | 0 <= i < j < |r| ensures r[i].0 != r[j].0 {
      assert r[j] == rest[j - 1];
      if i > 0 {
        assert r[i] == rest[i - 1];
      }
    }
  }

  lemma KeysOfCons(x: (string, string), rest: Hashes)
    ensures KeysOf([x] + rest) == {x.0} + KeysOf(rest)
  {
    var d := [x] + rest;
    assert forall i :: 0 <= i < |rest| ==> d[i + 1] == rest[i];
    assert d[0] == x;
  }

  /** Why `parse_sysmon_hashes` raises: a segment with more than one `=` does
      not unpack into a name and a value. */
  datatype HashError = TooManyValues(segment: string)

  /** The loop of `parse_sysmon_hashes` over the comma segments, from the dict
      built so far: segments without `=` are skipped, the others are
      written lower-cased. */
  function ParseSegments(d: Hashes, segs: seq<string>): (r: Result<Hashes, HashError>)
    decreases |segs|
    ensures r.Ok? && AllLower(d) ==> AllLower(r.value)
    ensures r.Ok? && DistinctKeys(d) ==> DistinctKeys(r.value)
  {
    if segs == [] then Ok(d)
    else
      var h := segs[0];
      if '=' !in h then ParseSegments(d, segs[1..])
      else
        var nv := Split(h, '=');
        if |nv| != 2 then Err(TooManyValues(h))
        else
          AssignDistinct(d, Lower(nv[0]), Lower(nv[1]));
          ParseSegments(Assign(d, Lower(nv[0]), Lower(nv[1])), segs[1..])
  }

  /** `parse_sysmon_hashes`: anything but a string gives the empty dict. */
  function SysmonHashes(v: Value): Result<Hashes, HashError>
  {
    if v.Str? then ParseSegments([], Split(v.s, ',')) else Ok([])
  }

  /** `parse_sysmon_hashes`, as the loop that fills the dict. */
  method ParseSysmonHashes(v: Value) returns (r: Result<Hashes, HashError>)
    ensures r == SysmonHashes(v)
    ensures !v.Str? ==> r == Ok([])
    ensures r.Ok? ==> AllLower(r.value) && DistinctKeys(r.value)
  {
    var d: Hashes := [];
    if v.Str? {
      var segs := Split(v.s, ',');
      var i := 0;
      while i < |segs|
        invariant 0 <= i <= |segs|
        invariant ParseSegments(d, segs[i..]) == SysmonHashes(v)
      {
        var h := segs[i];
        assert segs[i..][1..] == segs[i + 1..];
        if '=' in h {
          var nv := Split(h, '=');
          if |nv| != 2 {
            return Err(TooManyValues(h));
          }
          d := Assign(d, Lower(nv[0]), Lower(nv[1]));
        }
        i := i + 1;
      }
    }
    r := Ok(d);
  }

  /** Parsing a concatenation of segment lists parses the first, then the second. */
  lemma {:induction false} ParseSegmentsConcat(d: Hashes, a: seq<string>, b: seq<string>)
    decreases |a|
    ensures ParseSegments(d, a + b) ==
      match ParseSegments(d, a)
      case Ok(d') => ParseSegments(d', b)
      case Err(e) => Err(e)
  {
    if a == [] {
      assert a + b == b;
    } else {
      assert (a + b)[0] == a[0] && (a + b)[1..] == a[1..] + b;
      var h := a[0];
      if '=' !in h {
        ParseSegmentsConcat(d, a[1..], b);
      } else if |Split(h, '=')| == 2 {
        var nv := Split(h, '=');
        ParseSegmentsConcat(Assign(d, Lower(nv[0]), Lower(nv[1])), a[1..], b);
      }
    }
  }

  /** Parsing raises exactly when some segment holds more than one `=`. */
  lemma {:induction false} ParseFailsIff(d: Hashes, segs: seq<string>)
    decreases |segs|
    ensures ParseSegments(d, segs).Err? <==> exists i :: 0 <= i < |segs| && Count(segs[i], '=') >= 2
  {
    if segs != [] {
      var h := segs[0];
      assert forall i :: 1 <= i < |segs| ==> segs[i] == segs[1..][i - 1];
      if '=' !in h {
        ParseFailsIff(d, segs[1..]);
      } else if |Split(h, '=')| == 2 {
        var nv := Split(h, '=');
        ParseFailsIff(Assign(d, Lower(nv[0]), Lower(nv[1])), segs[1..]);
      }
    }
  }

  /** A segment without `=` contributes nothing. */
  lemma SkipWithoutEquals(d: Hashes, a: seq<string>, h: string, b: seq<string>)
    requires '=' !in h
    ensures ParseSegments(d, a + [h] + b) == ParseSegments(d, a + b)
  {
    ParseSegmentsConcat(d, a, [h] + b);
    ParseSegmentsConcat(d, a, b);
    assert a + [h] + b == a + ([h] + b);
    assert ([h] + b)[1..] == b;
  }

  /** A later `name=value` segment overwrites an earlier one with the same
      lower-cased name. */
  lemma LastSegmentWins(d: Hashes, segs: seq<string>, name: string, value: string)
    requires '=' !in name && '=' !in value
    requires ParseSegments(d, segs + [name + "=" + value]).Ok?
    ensures Find(ParseSegments(d, segs + [name + "=" + value]).value, Lower(name)) == Some(Lower(value))
  {
    var h := name + "=" + value;
    ParseSegmentsConcat(d, segs, [h]);
    JoinSplit([name, value], '=');
    assert Join([name, value], '=') == h;
    CountOfJoin(name, value);
  }

  lemma CountOfJoin(name: string, value: string)
    requires '=' !in name && '=' !in value
    ensures '=' in name + "=" + value
  {
    assert (name + "=" + value)[|name|] == '=';
  }
}
